/**
 * The `onSosRequestCreated` trigger as a whole: intake, the users query and
 * push, then the donors query and the SMS batch.
 */
module Pipeline {
  import opened Wrappers
  import opened Records
  import opened Intake
  import opened Resolver
  import opened Push
  import opened Sms

  /**
   * What one invocation does. `PushFailed`: `sendToDevice` rejected, so the
   * handler stopped before the donors query. `Completed`: the push call made,
   * if any, and the batch committed, if the donors query returned anything.
   */
  datatype Outcome =
    | Skipped
    | PushFailed(failed: PushCall)
    | Completed(push: Option<PushCall>, batch: Option<seq<PendingSms>>)
  {
    /** The `sendToDevice` call attempted, if any. */
    function PushAttempted(): Option<PushCall>
    {
      match this
      case Skipped => None
      case PushFailed(p) => Some(p)
      case Completed(p, _) => p
    }

    /** The `pending_sms` records written. */
    function Queued(): seq<PendingSms>
    {
      if Completed? && batch.Some? then batch.value else []
    }
  }

  /**
   * One invocation for the request `req` with id `sosId`, over the registry
   * snapshots `users` and `donors`; `pushOk` is whether `sendToDevice` resolves.
   */
  function Run(req: SosRequest, sosId: string, users: seq<User>, donors: seq<Donor>, pushOk: bool): (o: Outcome)
    ensures o.Skipped? <==> !Truthy(req.district) || !Truthy(req.bloodGroup)
    ensures o.Skipped? ==> o.PushAttempted().None? && o.Queued() == []
    ensures o.PushFailed? ==> !pushOk && o.Queued() == []
    ensures o.PushAttempted().Some? ==>
      var k := Validate(req).value;
      o.PushAttempted().value.payload == BuildPayload(sosId, k)
      && o.PushAttempted().value.tokens == Tokens(SelectUsers(users, k.district, k.bloodGroup))
      && |o.PushAttempted().value.tokens| > 0
  {
    match Validate(req)
    case None => Skipped
    case Some(k) =>
      var push := BuildPush(Tokens(SelectUsers(users, k.district, k.bloodGroup)), sosId, k);
      if push.Some? && !pushOk then PushFailed(push.value)
      else
        var selected := SelectDonors(donors, k.district, k.bloodGroup);
        Completed(push, if selected == [] then None else Some(PendingRecords(sosId, k, selected)))
  }

  /** The trigger handler, step by step as the JavaScript handler does it. */
  method OnSosRequestCreated(req: SosRequest, sosId: string, users: seq<User>, donors: seq<Donor>, pushOk: bool)
    returns (o: Outcome)
    ensures o == Run(req, sosId, users, donors, pushOk)
  {
    var note := OrEmpty(req.note);
    if !Truthy(req.district) || !Truthy(req.bloodGroup) {
      return Skipped;
    }
    var district, bloodGroup := req.district.value, req.bloodGroup.value;
    var key := Key(district, bloodGroup, note);
    var tokens := CollectTokens(SelectUsers(users, district, bloodGroup));
    var push: Option<PushCall> := None;
    if |tokens| > 0 {
      push := Some(PushCall(tokens, BuildPayload(sosId, key)));
      if !pushOk {
        return PushFailed(push.value);
      }
    }
    var selected := SelectDonors(donors, district, bloodGroup);
    if selected == [] {
      return Completed(push, None);
    }
    var committed := QueueSms(sosId, key, selected);
    return Completed(push, Some(committed));
  }

  /** The token list is non-empty exactly when some matching user has a token. */
  lemma MatchingTokensNonEmpty(users: seq<User>, district: string, bloodGroup: string)
    ensures Tokens(SelectUsers(users, district, bloodGroup)) != []
        <==> exists i :: 0 <= i < |users| && UserMatches(users[i], district, bloodGroup) && HasToken(users[i])
  {
    var selected := SelectUsers(users, district, bloodGroup);
    var tokens := Tokens(selected);
    SelectUsersExactly(users, district, bloodGroup);
    TokensExactly(selected);
    if tokens != [] {
      assert tokens[0] in tokens;
      var j :| 0 <= j < |selected| && selected[j].fcmToken == Some(tokens[0]);
      assert selected[j] in selected;
      var i :| 0 <= i < |users| && users[i] == selected[j];
      assert UserMatches(users[i], district, bloodGroup) && HasToken(users[i]);
    }
    if exists i :: 0 <= i < |users| && UserMatches(users[i], district, bloodGroup) && HasToken(users[i]) {
      var i :| 0 <= i < |users| && UserMatches(users[i], district, bloodGroup) && HasToken(users[i]);
      assert users[i] in selected;
      var j :| 0 <= j < |selected| && selected[j] == users[i];
      assert users[i].fcmToken.value in tokens;
    }
  }

  /** For a valid request, a push is attempted exactly when some matching user has a token. */
  lemma PushIffMatchingUserHasToken(req: SosRequest, sosId: string, users: seq<User>, donors: seq<Donor>, pushOk: bool)
    requires Truthy(req.district) && Truthy(req.bloodGroup)
    ensures Run(req, sosId, users, donors, pushOk).PushAttempted().Some?
        <==> exists i :: 0 <= i < |users| && UserMatches(users[i], req.district.value, req.bloodGroup.value)
                          && HasToken(users[i])
  {
    MatchingTokensNonEmpty(users, req.district.value, req.bloodGroup.value);
  }

  /**
   * Unless a rejected push stopped the handler, every matching donor with a
   * phone gets its record, naming the donor, its phone and the request.
   */
  lemma EligibleDonorQueued(req: SosRequest, sosId: string, users: seq<User>, donors: seq<Donor>, pushOk: bool, i: nat)
    requires Truthy(req.district) && Truthy(req.bloodGroup)
    requires !Run(req, sosId, users, donors, pushOk).PushFailed?
    requires i < |donors| && DonorMatches(donors[i], req.district.value, req.bloodGroup.value) && HasPhone(donors[i])
    ensures var rec := PendingSms(sosId, donors[i].id, donors[i].phone.value,
                                  Message(req.bloodGroup.value, req.district.value, OrEmpty(req.note)), Pending);
            rec in Run(req, sosId, users, donors, pushOk).Queued()
  {
    var k := Validate(req).value;
    var selected := SelectDonors(donors, k.district, k.bloodGroup);
    SelectDonorsExactly(donors, k.district, k.bloodGroup);
    PendingRecordsExactly(sosId, k, selected);
    assert donors[i] in selected;
    assert RecordFor(sosId, k, donors[i]) in PendingRecords(sosId, k, selected);
  }

  /**
   * With distinct donor document ids, no two records written name the same
   * donor: together with EligibleDonorQueued, exactly one record per matching
   * donor with a phone.
   */
  lemma EligibleDonorQueuedOnce(req: SosRequest, sosId: string, users: seq<User>, donors: seq<Donor>, pushOk: bool)
    requires DistinctIds(donors)
    ensures DistinctDonorIds(Run(req, sosId, users, donors, pushOk).Queued())
  {
    var o := Run(req, sosId, users, donors, pushOk);
    if o.Queued() != [] {
      var k := Validate(req).value;
      var selected := SelectDonors(donors, k.district, k.bloodGroup);
      SelectDonorsKeepsDistinctIds(donors, k.district, k.bloodGroup);
      NoDuplicateRecords(sosId, k, selected);
    }
  }

  /** Every record written belongs to a matching donor with a phone. */
  lemma QueuedOnlyForEligibleDonors(req: SosRequest, sosId: string, users: seq<User>, donors: seq<Donor>, pushOk: bool, rec: PendingSms)
    requires rec in Run(req, sosId, users, donors, pushOk).Queued()
    ensures Truthy(req.district) && Truthy(req.bloodGroup)
    ensures rec.sosId == sosId && rec.status == Pending
    ensures exists i :: 0 <= i < |donors| && DonorMatches(donors[i], req.district.value, req.bloodGroup.value)
                        && donors[i].phone == Some(rec.phone) && rec.phone != "" && donors[i].id == rec.donorId
  {
    var k := Validate(req).value;
    var selected := SelectDonors(donors, k.district, k.bloodGroup);
    SelectDonorsExactly(donors, k.district, k.bloodGroup);
    PendingRecordsExactly(sosId, k, selected);
    var d :| d in selected && HasPhone(d) && rec == RecordFor(sosId, k, d);
    var i :| 0 <= i < |donors| && donors[i] == d;
  }

  /** No matching donor with a phone (none matching, or all without a phone): no records. */
  lemma NoEligibleDonorNoRecords(req: SosRequest, sosId: string, users: seq<User>, donors: seq<Donor>, pushOk: bool)
    requires Truthy(req.district) && Truthy(req.bloodGroup)
    requires forall i :: 0 <= i < |donors| && DonorMatches(donors[i], req.district.value, req.bloodGroup.value)
                         ==> !HasPhone(donors[i])
    ensures Run(req, sosId, users, donors, pushOk).Queued() == []
  {
    var queued := Run(req, sosId, users, donors, pushOk).Queued();
    if queued != [] {
      assert queued[0] in queued;
      QueuedOnlyForEligibleDonors(req, sosId, users, donors, pushOk, queued[0]);
    }
  }

  /** A batch is committed exactly when the donors query returns some donor. */
  lemma BatchIffDonorsMatch(req: SosRequest, sosId: string, users: seq<User>, donors: seq<Donor>, pushOk: bool)
    requires Run(req, sosId, users, donors, pushOk).Completed?
    ensures Run(req, sosId, users, donors, pushOk).batch.Some?
        <==> exists i :: 0 <= i < |donors| && DonorMatches(donors[i], req.district.value, req.bloodGroup.value)
  {
    SelectDonorsEmpty(donors, req.district.value, req.bloodGroup.value);
  }

  /** The push and the SMS channel are not isolated: a rejected push means no records. */
  lemma PushFailureStopsSms(req: SosRequest, sosId: string, users: seq<User>, donors: seq<Donor>)
    requires Truthy(req.district) && Truthy(req.bloodGroup)
    requires exists i :: 0 <= i < |users| && UserMatches(users[i], req.district.value, req.bloodGroup.value)
                         && HasToken(users[i])
    ensures Run(req, sosId, users, donors, false).PushFailed?
    ensures Run(req, sosId, users, donors, false).Queued() == []
  {
    PushIffMatchingUserHasToken(req, sosId, users, donors, false);
  }

  /** The Colombo message carries the note clause between its head and its call to action. */
  lemma ColomboMessageWithNote()
    ensures var m := Message("O+", "Colombo", "Surgery at 6pm");
            m[..|Head("O+", "Colombo")|] == "BloodBridge SOS: Need O+ in Colombo. "
            && m[|Head("O+", "Colombo")|..|m| - |CallToAction|] == "Note: Surgery at 6pm. "
            && m[|m| - |CallToAction|..] == "If you can help, open the app."
  {
    MessageShape("O+", "Colombo", "Surgery at 6pm");
    assert Head("O+", "Colombo") == "BloodBridge SOS: Need O+ in Colombo. ";
    assert NoteClause("Surgery at 6pm") == "Note: Surgery at 6pm. ";
  }

  /**
   * The Colombo request with one matching user and one matching donor: one
   * push to the user's token and one record carrying the note.
   */
  lemma ColomboScenario()
    ensures var req := SosRequest(Some("Colombo"), Some("O+"), Some("Surgery at 6pm"));
            var users := [User("Colombo", "O+", true, Some("tokA"))];
            var donors := [Donor("d1", "Colombo", "O+", true, Some("0771234567"))];
            var o := Run(req, "s1", users, donors, true);
            o.PushAttempted() == Some(PushCall(["tokA"], BuildPayload("s1", Key("Colombo", "O+", "Surgery at 6pm"))))
            && o.Queued() == [PendingSms("s1", "d1", "0771234567", Message("O+", "Colombo", "Surgery at 6pm"), Pending)]
  {
    var users := [User("Colombo", "O+", true, Some("tokA"))];
    var donors := [Donor("d1", "Colombo", "O+", true, Some("0771234567"))];
    assert SelectUsers(users, "Colombo", "O+") == users;
    assert Tokens(users) == ["tokA"];
    assert SelectDonors(donors, "Colombo", "O+") == donors;
    var k := Key("Colombo", "O+", "Surgery at 6pm");
    assert PendingRecords("s1", k, donors) == [RecordFor("s1", k, donors[0])];
  }

  /** The same request without a note: the message has no note clause and the push data note is "". */
  lemma NoNoteScenario()
    ensures var req := SosRequest(Some("Colombo"), Some("O+"), None);
            var users := [User("Colombo", "O+", true, Some("tokA"))];
            var donors := [Donor("d1", "Colombo", "O+", true, Some("0771234567"))];
            var o := Run(req, "s1", users, donors, true);
            o.PushAttempted().Some? && o.PushAttempted().value.payload.data["note"] == ""
            && o.Queued() == [PendingSms("s1", "d1", "0771234567", Head("O+", "Colombo") + CallToAction, Pending)]
  {
    var users := [User("Colombo", "O+", true, Some("tokA"))];
    var donors := [Donor("d1", "Colombo", "O+", true, Some("0771234567"))];
    assert SelectUsers(users, "Colombo", "O+") == users;
    assert Tokens(users) == ["tokA"];
    assert SelectDonors(donors, "Colombo", "O+") == donors;
    var k := Key("Colombo", "O+", "");
    assert Message("O+", "Colombo", "") == Head("O+", "Colombo") + CallToAction;
    assert PendingRecords("s1", k, donors) == [RecordFor("s1", k, donors[0])];
  }
}
