/**
 * The push channel: token collection over the selected users and the one
 * payload shared by every token.
 */
module Push {
  import opened Wrappers
  import opened Records
  import opened Intake

  const TitlePrefix: string := "\U{1F6A8} Urgent Blood Need: "
  const BodyPrefix: string := "Required in "
  const BodySuffix: string := ". Tap to view details."
  const ClickAction: string := "FLUTTER_NOTIFICATION_CLICK"

  datatype Notification = Notification(title: string, body: string)
  datatype Payload = Payload(notification: Notification, data: map<string, string>)

  /** One `sendToDevice` call: the device tokens and the payload sent to all of them. */
  datatype PushCall = PushCall(tokens: seq<string>, payload: Payload)

  predicate HasToken(u: User)
  {
    Truthy(u.fcmToken)
  }

  /** The non-empty `fcmToken`s of `users`, in order. */
  function Tokens(users: seq<User>): (r: seq<string>)
    ensures |r| <= |users|
  {
    if users == [] then []
    else
      (if HasToken(users[0]) then [users[0].fcmToken.value] else []) + Tokens(users[1..])
  }

  /**
   * Every collected token is non-empty and is some user's `fcmToken`, and every
   * user with a non-empty token contributes it.
   */
  lemma {:induction false} TokensExactly(users: seq<User>)
    ensures forall t :: t in Tokens(users) ==> t != "" && exists i :: 0 <= i < |users| && users[i].fcmToken == Some(t)
    ensures forall i :: 0 <= i < |users| && HasToken(users[i]) ==> users[i].fcmToken.value in Tokens(users)
  {
    if users != [] {
      var tail := users[1..];
      TokensExactly(tail);
      forall t | t in Tokens(tail) ensures exists i :: 0 <= i < |users| && users[i].fcmToken == Some(t) {
        var j :| 0 <= j < |tail| && tail[j].fcmToken == Some(t);
        assert users[j + 1] == tail[j];
      }
      forall i | 1 <= i < |users| && HasToken(users[i]) ensures users[i].fcmToken.value in Tokens(users) {
        assert users[i] == tail[i - 1];
      }
    }
  }

  /** Token collection keeps user order: it distributes over concatenation. */
  lemma {:induction false} TokensAppend(a: seq<User>, b: seq<User>)
    ensures Tokens(a + b) == Tokens(a) + Tokens(b)
  {
    if a != [] {
      assert (a + b)[1..] == a[1..] + b;
      TokensAppend(a[1..], b);
    } else {
      assert a + b == b;
    }
  }

  /** Exactly the users without a token are dropped: no user is lost iff every user has one. */
  lemma {:induction false} TokensComplete(users: seq<User>)
    ensures |Tokens(users)| == |users| <==> forall i :: 0 <= i < |users| ==> HasToken(users[i])
  {
    if users != [] {
      TokensComplete(users[1..]);
      assert forall i :: 1 <= i < |users| ==> users[i] == users[1..][i - 1];
      if !HasToken(users[0]) {
        assert |Tokens(users)| == |Tokens(users[1..])| <= |users| - 1;
      }
    }
  }

  /** The `forEach` over the users snapshot that pushes each truthy `fcmToken` into `tokens`. */
  method CollectTokens(users: seq<User>) returns (tokens: seq<string>)
    ensures tokens == Tokens(users)
  {
    tokens := [];
    for i := 0 to |users|
      invariant tokens == Tokens(users[..i])
    {
      assert users[..i + 1] == users[..i] + [users[i]];
      TokensAppend(users[..i], [users[i]]);
      if HasToken(users[i]) {
        tokens := tokens + [users[i].fcmToken.value];
      }
    }
    assert users[..|users|] == users;
  }

  /** The payload: title names the blood group, body the district, data carries the request. */
  function BuildPayload(sosId: string, key: Key): (p: Payload)
    ensures p.notification.title == TitlePrefix + key.bloodGroup
    ensures p.notification.body == BodyPrefix + key.district + BodySuffix
    ensures p.data.Keys == {"sosId", "district", "bloodGroup", "note", "click_action"}
    ensures p.data["sosId"] == sosId && p.data["district"] == key.district
    ensures p.data["bloodGroup"] == key.bloodGroup && p.data["note"] == key.note
    ensures p.data["click_action"] == ClickAction
  {
    Payload(
      Notification(TitlePrefix + key.bloodGroup, BodyPrefix + key.district + BodySuffix),
      map["sosId" := sosId, "district" := key.district, "bloodGroup" := key.bloodGroup,
          "note" := key.note, "click_action" := ClickAction])
  }

  /** The push is sent only when at least one token was collected, to exactly those tokens. */
  function BuildPush(tokens: seq<string>, sosId: string, key: Key): (r: Option<PushCall>)
    ensures r.Some? <==> |tokens| > 0
    ensures r.Some? ==> r.value.tokens == tokens && r.value.payload == BuildPayload(sosId, key)
  {
    if |tokens| > 0 then Some(PushCall(tokens, BuildPayload(sosId, key))) else None
  }
}
