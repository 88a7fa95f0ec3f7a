/** A subscriber's whole life, through the handlers' contracts alone: a row
    is inserted, its token confirms it, and a newsletter then reaches it
    exactly once. The oracles are fixed to an authenticated caller and a
    gateway that always delivers. */
module Scenario {
  import opened Wrappers
  import opened Http
  import opened Authentication
  import opened Subscriptions
  import opened Newsletters

  /** "Basic dXNlcjpwYXNz" as header bytes. */
  const AuthorizationHeader: seq<byte> :=
    [66, 97, 115, 105, 99, 32, 100, 88, 78, 108, 99, 106, 112, 119, 89, 88, 78, 122]

  const Email: string := "ursula_le_guin@gmail.com"

  function Base64Decode(s: string): Option<seq<byte>> {
    Some([117, 115, 101, 114, 58, 112, 97, 115, 115])
  }

  function Utf8Decode(b: seq<byte>): Option<string> {
    Some("user:pass")
  }

  function Validate(c: Credentials): AuthOutcome {
    Authenticated(1)
  }

  function ParseEmail(e: string): Result<string, string> {
    Ok(e)
  }

  function Deliver(k: nat): bool {
    true
  }

  lemma HeaderIsBasic()
    ensures HeaderToStr(AuthorizationHeader) == Some(BasicPrefix + "dXNlcjpwYXNz")
  {
    var value := BasicPrefix + "dXNlcjpwYXNz";
    var h := AuthorizationHeader;
    assert forall i :: 0 <= i < |h| ==> IsVisibleAscii(h[i]);
    var read := seq(|h|, i requires 0 <= i < |h| => (h[i] as int) as char);
    assert |read| == |value|;
    assert forall i :: 0 <= i < |value| ==> read[i] == value[i];
    assert read == value;
  }

  lemma CallerIsAuthenticated()
    ensures Authenticate(Some(AuthorizationHeader), Base64Decode, Utf8Decode, Validate) == Ok(1)
  {
    HeaderIsBasic();
    assert "user" + ":" + "pass" == "user:pass";
    BasicAuthenticationExtracts(AuthorizationHeader, "dXNlcjpwYXNz", [117, 115, 101, 114, 58, 112, 97, 115, 115],
                                "user", "pass", Base64Decode, Utf8Decode);
  }

  lemma OneRecipient(rows: seq<Subscription>)
    requires rows == [Subscription(7, Email, "le guin", 0, CONFIRMED)]
    ensures OkEmails(GetConfirmedSubscribers(rows, Succeeded, ParseEmail).value) == [Email]
  {
    assert ConfirmedRows(rows) == rows;
    var entries := GetConfirmedSubscribers(rows, Succeeded, ParseEmail).value;
    assert entries == [Ok(ConfirmedSubscriber(Email))];
    assert entries[..0] == [];
  }

  method SubscribeConfirmPublish() returns (status: StatusCode, sent: seq<SentEmail>)
    ensures status == OK
    ensures sent == [SentEmail(Email, "Issue 1", "hi", "<p>hi</p>")]
  {
    var store := new Store("pending_confirmation", map["token" := 7]);
    var subscribed := store.Subscribe(7, Email, "le guin", 0, Succeeded);
    assert store.rows == [Subscription(7, Email, "le guin", 0, "pending_confirmation")];
    var confirmed := store.Confirm("token", Succeeded, Succeeded);
    assert store.rows[0] == Subscription(7, Email, "le guin", 0, CONFIRMED);

    CallerIsAuthenticated();
    OneRecipient(store.rows);
    var result;
    result, sent := PublishNewsletter(
      store, Some(AuthorizationHeader), Base64Decode, Utf8Decode, Validate,
      Succeeded, ParseEmail, BodyData("Issue 1", "hi", "<p>hi</p>"), Deliver);
    status := result.value;
  }
}
