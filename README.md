# BloodBridge SOS fan-out, modelled in Dafny

This project models the Firestore trigger `onSosRequestCreated` of BloodBridge
(`functions/index.js`). When a document is created in `sos_requests`, the trigger:

1. skips, with no side effects, when `district` or `bloodGroup` is missing or empty;
2. queries `users` on `district`, `bloodGroup` and `isBloodClear == true`, and collects the
   non-empty `fcmToken`s in query order;
3. sends one push (title, body, data map) to those tokens, if there are any;
4. queries `donors` with the same three filters. If that returns anything, it adds one
   `pending_sms` record per donor with a non-empty phone to a write batch, then commits the batch.

Modules, one per stage of the handler:

- `Wrappers`: `Option`.
- `Records`: the documents read and written, and JavaScript truthiness of optional string fields (`Truthy`, `OrEmpty`).
- `Intake`: the required-field check (`Validate`).
- `Resolver`: the two registry queries, each a filter over the registry's documents in query order.
- `Push`: token collection. The pure `Tokens` is the specification, and the `CollectTokens` loop is proved against it. Also the push payload and the decision whether to send it.
- `Sms`: the message template, its inverse `NoteOf`, the records of the batch, and the `WriteBatch` class that `set` appends to. `QueueSms` is the `forEach` loop over the donors, and is proved equal to `PendingRecords`.
- `Pipeline`: the whole invocation. `Run` is a function and `OnSosRequestCreated` is the step-by-step handler proved equal to it. The lemmas relate the outcome to the registry contents.

Modelling decisions:

- A request field the document lacks is `None`. JavaScript falsiness of a string field is "`None` or `Some("")`".
- In `users` and `donors`, a missing `district` or `bloodGroup` is `""`. A validated request value is never `""`, so such a document never matches, as in Firestore. A missing `isBloodClear` is `false`.
- A Firestore query is a filter over a given sequence of documents, in the order the query returns them.
- `sendToDevice` is external. Whether its promise resolves is the parameter `pushOk`. When it rejects, the handler has already built the push call, and it stops before the donors query (`Outcome.PushFailed`). The two channels are therefore not failure-isolated.
- An empty donors result commits no batch (`batch == None`). A non-empty result whose donors all lack a phone commits an empty batch (`Some([])`).
- The title's emoji U+1F6A8 is one Dafny `char`. In JavaScript it is two UTF-16 code units. No length of that string is used anywhere.
- Everything is a function or a method with no hidden inputs. So the same request and the same registry snapshots always give the same push payload and the same records.

## Model

| member | source | states |
|---|---|---|
| Records.Truthy | functions/index.js:20 | the JavaScript truthiness test on a string field: present and non-empty |
| Records.OrEmpty | functions/index.js:18 | defaulting the note to `""` gives `""` exactly when the note is falsy, and otherwise the note itself |
| Intake.Validate | functions/index.js:16-23 | the handler skips exactly when `district` or `bloodGroup` is absent or empty; otherwise it continues with those two values (both non-empty) and with the note defaulted to `""` |
| Resolver.UserMatches | functions/index.js:28-30 | the three `where` equality filters of the users query |
| Resolver.DonorMatches | functions/index.js:69-71 | the three `where` equality filters of the donors query |
| Resolver.SelectUsers | functions/index.js:26-31 | the users query returns no more users than the registry holds |
| Resolver.SelectDonors | functions/index.js:67-72 | the donors query returns no more donors than the registry holds |
| Resolver.SelectUsersExactly | functions/index.js:26-31 | a user is selected iff its district and blood group equal the request's and `isBloodClear` is true |
| Resolver.SelectDonorsExactly | functions/index.js:67-72 | a donor is selected iff its district and blood group equal the request's and `isBloodClear` is true |
| Resolver.SelectUsersAppend | functions/index.js:26-31 | the users query keeps registry order: selecting from a concatenation is the concatenation of the selections |
| Resolver.SelectDonorsAppend | functions/index.js:67-72 | the donors query keeps registry order in the same sense |
| Resolver.SelectDonorsKeepsDistinctIds | functions/index.js:67-72 | the donors query returns each donor once: distinct document ids stay distinct among the selected donors |
| Resolver.SelectDonorsEmpty | functions/index.js:67-74 | the donors snapshot is empty iff no donor in the registry matches |
| Push.HasToken | functions/index.js:42 | the `if (user.fcmToken)` test: the user has a present, non-empty token |
| Push.Tokens | functions/index.js:39-43 | never more tokens than users |
| Push.TokensExactly | functions/index.js:39-43 | every collected token is non-empty and is the `fcmToken` of some user; every user with a non-empty token contributes it |
| Push.TokensAppend | functions/index.js:39-43 | tokens are collected in user order: collecting over a concatenation concatenates the token lists |
| Push.TokensComplete | functions/index.js:39-43 | the token list is as long as the user list iff every user has a non-empty token, so only users without a token are dropped |
| Push.CollectTokens | functions/index.js:39-43 | the `forEach` that pushes each truthy `fcmToken` yields exactly `Tokens` of the users |
| Push.BuildPayload | functions/index.js:48-60 | title is `"🚨 Urgent Blood Need: " + bloodGroup`; body is `"Required in " + district + ". Tap to view details."`; data has exactly the keys sosId, district, bloodGroup, note, click_action, with the request's values, note `""` when absent, and click_action `FLUTTER_NOTIFICATION_CLICK` |
| Push.BuildPush | functions/index.js:45-62 | a push call exists iff at least one token was collected, and it goes to exactly those tokens with the shared payload |
| Sms.Head | functions/index.js:86 | the fixed opening `"BloodBridge SOS: Need " + bloodGroup + " in " + district + ". "` |
| Sms.NoteClause | functions/index.js:87 | the note clause is empty iff the note is empty |
| Sms.Message | functions/index.js:85-88 | the SMS template; its length is the head plus the call to action, plus the note's length and eight characters exactly when the note is non-empty |
| Sms.MessageShape | functions/index.js:85-88 | the SMS starts with `"BloodBridge SOS: Need " + bloodGroup + " in " + district + ". "`, ends with `"If you can help, open the app."`, and holds exactly the note clause between them; the clause adds the note's length plus eight characters for a non-empty note and nothing for an empty one |
| Sms.MessageNoteRoundTrip | functions/index.js:85-88 | the note is read back verbatim from the message (`""` when the clause was omitted) |
| Sms.NoteOfSound | functions/index.js:85-88 | any text from which a note is read back is exactly the message the template builds for that note (converse of the round trip) |
| Sms.MessageDeterminesNote | functions/index.js:85-88 | for one blood group and district, different notes give different messages |
| Sms.HasPhone | functions/index.js:83 | the `if (!phone) return` test: the donor has a present, non-empty phone |
| Sms.RecordFor | functions/index.js:90-97 | the object `batch.set` writes for one donor: the request's `sosId`, the donor's document id and its (non-empty) phone, the template message and status `"pending"` |
| Sms.PendingRecords | functions/index.js:78-98 | never more records than donors |
| Sms.PendingRecordsExactly | functions/index.js:78-98 | every record carries the request's `sosId`, status `"pending"`, the template message and a non-empty phone, and belongs to a donor with that phone; every donor with a phone has its record |
| Sms.PendingRecordsAppend | functions/index.js:78-98 | the records are written in donor order: a concatenation of donors gives the concatenation of their records |
| Sms.RecordIdsFromDonors | functions/index.js:81-92 | every record's `donorId` is the document id of one of the donors |
| Sms.NoDuplicateRecords | functions/index.js:78-98 | with distinct donor document ids, no two records name the same donor |
| Sms.PhonelessDonorNotQueued | functions/index.js:83 | with distinct donor document ids, a donor without a phone has no record |
| Sms.WriteBatch.constructor | functions/index.js:76 | a new batch holds no writes |
| Sms.WriteBatch.Set | functions/index.js:90-97 | `batch.set` on an open batch appends one record to what the batch will write |
| Sms.WriteBatch.Commit | functions/index.js:100 | `batch.commit` writes every record set so far, all at once, and closes the batch |
| Sms.QueueSms | functions/index.js:76-100 | the `forEach` over the donors skips donors without a phone and sets one record per other donor on one batch; the commit writes exactly `PendingRecords`, in donor order |
| Pipeline.Run | functions/index.js:16-104 | skipped iff district or bloodGroup is falsy, and then no push and no records; a rejected push means no records; any push goes to the tokens of the matching users, with the payload built from the request |
| Pipeline.OnSosRequestCreated | functions/index.js:9-105 | the step-by-step handler (validation, token loop, push, donors query, batch loop, commit) produces exactly the outcome `Run` describes |
| Pipeline.MatchingTokensNonEmpty | functions/index.js:26-45 | the collected token list is non-empty iff some matching user has a non-empty token |
| Pipeline.PushIffMatchingUserHasToken | functions/index.js:26-64 | for a valid request, a push is attempted iff some user matching district, blood group and `isBloodClear` has a token |
| Pipeline.EligibleDonorQueued | functions/index.js:67-98 | unless a rejected push stopped the handler, every matching donor with a phone gets a record with its id, its phone, the request's `sosId`, the template message and status `"pending"` |
| Pipeline.EligibleDonorQueuedOnce | functions/index.js:67-98 | with distinct donor document ids, no two records written name the same donor; with EligibleDonorQueued, exactly one record per matching donor with a phone |
| Pipeline.QueuedOnlyForEligibleDonors | functions/index.js:67-98 | every record written comes from a valid request, carries its `sosId` and status `"pending"`, and belongs to a matching donor with that non-empty phone |
| Pipeline.NoEligibleDonorNoRecords | functions/index.js:74-83 | when no donor matches, or every matching donor lacks a phone, no records are written |
| Pipeline.BatchIffDonorsMatch | functions/index.js:74-102 | a batch is committed iff the donors query returns some donor |
| Pipeline.PushFailureStopsSms | functions/index.js:62-67 | when a push is due and `sendToDevice` rejects, the handler stops and writes no records |
| Pipeline.ColomboMessageWithNote | functions/index.js:85-88 | the Colombo/O+ message with note "Surgery at 6pm" is the head, then `"Note: Surgery at 6pm. "`, then the call to action |
| Pipeline.ColomboScenario | functions/index.js:16-102 | one matching user with token "tokA" and one matching donor with a phone: one push to `["tokA"]` with the request's payload, and one pending record for that donor |
| Pipeline.NoNoteScenario | functions/index.js:16-102 | the same request without a note: the push data note is `""` and the record's message is the head followed directly by the call to action |

## Left out

- Firebase initialisation and trigger registration (functions/index.js:1-9). These are platform plumbing. The document id `sosId` is a parameter.
- Firestore query execution (`.get()`). A query is a filter over a given sequence of documents; the store itself is external.
- `admin.messaging().sendToDevice`. This is an external transport. It is modelled as the emitted `(tokens, payload)` pair, plus whether it resolves; per-token delivery results are not modelled.
- A failing `.get()` or `batch.commit()`. The model does not cover these rejections. The commit is all-or-nothing, and it is modelled as producing the whole record list at once.
- The generated `pending_sms` document ids and `FieldValue.serverTimestamp()` for `createdAt`. These are nondeterministic and are omitted from the records.
- `console.log` calls and `async`/`await` sequencing beyond the order of the steps. These are observability and concurrency concerns.
- Deduplication across repeated invocations for the same request. The code has none, and the model does not claim any.
- Non-string JavaScript values in the string fields (a numeric `district`, say). JavaScript truthiness is modelled for strings only.
- Pipeline.EligibleDonorQueued: states presence only; "exactly one record per donor" depends on distinct donor document ids, which the registry guarantees, and is stated by Pipeline.EligibleDonorQueuedOnce, Sms.NoDuplicateRecords and Sms.PhonelessDonorNotQueued under that requirement.
