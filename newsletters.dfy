/** `publish_newsletter` (src/routes/newsletters.rs): authenticate the caller
    with the case-sensitive `Basic ` form of HTTP Basic credentials (section 2
    of RFC 7617), read the confirmed
    subscribers, and send the issue to each of them in turn, stopping at the
    first delivery that fails. The base64 and UTF-8 decoders,
    `SubscriberEmail::parse`, `validate_credentials` and the email gateway are
    oracles passed in as parameters. */
module Newsletters {
  import opened Wrappers
  import opened Http
  import opened Authentication
  import opened Subscriptions

  newtype byte = b: int | 0 <= b < 256

  // ---------------------------------------------------------------------------
  // `basic_authentication`
  // ---------------------------------------------------------------------------

  const MissingAuthorizationHeader: string := "Missing Authorization header"
  const HeaderIsNotUtf8: string := "The 'Authorization' header was not a valid UTF8 string."
  const HeaderIsNotBasic: string := "The 'Authorization' header did not start with 'Basic '"
  const Base64DecodingFailed: string := "Failed to base64-decode 'Basic' credentials."
  const CredentialsAreNotUtf8: string := "The 'Basic' credentials were not valid UTF8."
  const MissingPassword: string := "Missing password in 'Basic' credentials."

  const BasicPrefix: string := "Basic "

  /** `HeaderValue::to_str` accepts only visible ASCII and tab. */
  predicate IsVisibleAscii(b: byte) {
    (32 <= b < 127) || b == 9
  }

  /** `HeaderValue::to_str`: the bytes read as characters, when every one of
      them is visible ASCII. */
  function HeaderToStr(value: seq<byte>): (r: Option<string>)
    ensures r.Some? <==> forall i :: 0 <= i < |value| ==> IsVisibleAscii(value[i])
    ensures r.Some? ==> |r.value| == |value| && forall i :: 0 <= i < |value| ==> r.value[i] as int == value[i] as int
  {
    if forall i :: 0 <= i < |value| ==> IsVisibleAscii(value[i]) then
      Some(seq(|value|, i requires 0 <= i < |value| => (value[i] as int) as char))
    else
      None
  }

  /** The position of the first ':' in `s`, if it has one. */
  function IndexOfColon(s: string): (r: Option<nat>)
    ensures r.None? <==> ':' !in s
    ensures r.Some? ==> r.value < |s| && s[r.value] == ':' && ':' !in s[..r.value]
  {
    if s == [] then None
    else if s[0] == ':' then Some(0)
    else
      match IndexOfColon(s[1..])
      case None => None
      case Some(k) =>
        assert s[..k + 1] == [s[0]] + s[1..][..k];
        Some(k + 1)
  }

  /** `decoded_credentials.splitn(2, ':')`: the username is everything before
      the first ':', the password everything after it (it may hold further
      colons). Without a ':' the password is missing; the username part of
      `splitn` always exists, so that error cannot arise. */
  function SplitCredentials(decoded: string): (r: Result<Credentials, string>)
    ensures r.Err? <==> ':' !in decoded
    ensures r.Err? ==> r.error == MissingPassword
    ensures r.Ok? ==> decoded == r.value.username + ":" + r.value.password
    ensures r.Ok? ==> ':' !in r.value.username
  {
    match IndexOfColon(decoded)
    case None => Err(MissingPassword)
    case Some(i) =>
      assert decoded == decoded[..i] + ":" + decoded[i + 1..];
      Ok(Credentials(decoded[..i], decoded[i + 1..]))
  }

  /** The split undoes `username + ":" + password` whenever the username has
      no colon, whatever the password holds. */
  lemma SplitCredentialsRoundTrip(username: string, password: string)
    requires ':' !in username
    ensures SplitCredentials(username + ":" + password) == Ok(Credentials(username, password))
  {
    var s := username + ":" + password;
    assert s[|username|] == ':';
    var i := IndexOfColon(s).value;
    assert i == |username| by {
      assert forall j :: 0 <= j < |username| ==> s[j] == username[j];
    }
    assert s[..i] == username;
    assert s[i + 1..] == password;
  }

  /** `basic_authentication`: each failing step yields its own message. */
  function BasicAuthentication(
    authorization: Option<seq<byte>>,
    base64Decode: string -> Option<seq<byte>>,
    utf8Decode: seq<byte> -> Option<string>
  ): (r: Result<Credentials, string>)
    ensures authorization.None? ==> r == Err(MissingAuthorizationHeader)
    ensures authorization.Some? && HeaderToStr(authorization.value).None? ==> r == Err(HeaderIsNotUtf8)
    ensures authorization.Some? && HeaderToStr(authorization.value).Some? ==>
      var header := HeaderToStr(authorization.value).value;
      && (!(BasicPrefix <= header) ==> r == Err(HeaderIsNotBasic))
      && (BasicPrefix <= header ==>
            var decodedBytes := base64Decode(header[|BasicPrefix|..]);
            && (decodedBytes.None? ==> r == Err(Base64DecodingFailed))
            && (decodedBytes.Some? && utf8Decode(decodedBytes.value).None? ==> r == Err(CredentialsAreNotUtf8))
            && (decodedBytes.Some? && utf8Decode(decodedBytes.value).Some? ==>
                  r == SplitCredentials(utf8Decode(decodedBytes.value).value)))
    ensures r.Ok? ==>
      && authorization.Some?
      && HeaderToStr(authorization.value).Some?
      && BasicPrefix <= HeaderToStr(authorization.value).value
    ensures r.Ok? ==> ':' !in r.value.username
  {
    match authorization
    case None => Err(MissingAuthorizationHeader)
    case Some(raw) =>
      match HeaderToStr(raw)
      case None => Err(HeaderIsNotUtf8)
      case Some(headerValue) =>
        if !(BasicPrefix <= headerValue) then Err(HeaderIsNotBasic)
        else
          match base64Decode(headerValue[|BasicPrefix|..])
          case None => Err(Base64DecodingFailed)
          case Some(decodedBytes) =>
            match utf8Decode(decodedBytes)
            case None => Err(CredentialsAreNotUtf8)
            case Some(decodedCredentials) => SplitCredentials(decodedCredentials)
  }

  /** A header value that does not start with exactly `Basic ` is refused. */
  lemma NonBasicHeaderIsRefused(
    raw: seq<byte>,
    base64Decode: string -> Option<seq<byte>>,
    utf8Decode: seq<byte> -> Option<string>)
    requires HeaderToStr(raw).Some? && !(BasicPrefix <= HeaderToStr(raw).value)
    ensures BasicAuthentication(Some(raw), base64Decode, utf8Decode) == Err(HeaderIsNotBasic)
  {
  }

  /** `Basic <encoded>`, where `encoded` decodes to `username:password`,
      yields exactly those credentials. */
  lemma BasicAuthenticationExtracts(
    raw: seq<byte>, encoded: string, decodedBytes: seq<byte>,
    username: string, password: string,
    base64Decode: string -> Option<seq<byte>>,
    utf8Decode: seq<byte> -> Option<string>)
    requires HeaderToStr(raw) == Some(BasicPrefix + encoded)
    requires base64Decode(encoded) == Some(decodedBytes)
    requires utf8Decode(decodedBytes) == Some(username + ":" + password)
    requires ':' !in username
    ensures BasicAuthentication(Some(raw), base64Decode, utf8Decode) == Ok(Credentials(username, password))
  {
    assert (BasicPrefix + encoded)[|BasicPrefix|..] == encoded;
    SplitCredentialsRoundTrip(username, password);
  }

  // ---------------------------------------------------------------------------
  // `PublishError`
  // ---------------------------------------------------------------------------

  datatype PublishError = AuthError(cause: string) | UnexpectedError(cause: string)

  /** The status and the `WWW-Authenticate` header of a response. */
  datatype Response = Response(status: StatusCode, wwwAuthenticate: Option<string>)

  const PublishChallenge: string := "Basic realm=\"publish\""

  /** `PublishError::into_response`: an authentication failure is a 401 that
      challenges for Basic credentials; anything else is a bare 500. */
  function IntoResponse(e: PublishError): (r: Response)
    ensures r.status == UNAUTHORIZED <==> e.AuthError?
    ensures r.status == INTERNAL_SERVER_ERROR <==> e.UnexpectedError?
    ensures r.wwwAuthenticate == (if e.AuthError? then Some(PublishChallenge) else None)
  {
    match e
    case UnexpectedError(_) => Response(INTERNAL_SERVER_ERROR, None)
    case AuthError(_) => Response(UNAUTHORIZED, Some(PublishChallenge))
  }

  /** Lines 72-81 of `publish_newsletter`: extraction failures and invalid
      credentials are `AuthError`, an unexpected validation failure is
      `UnexpectedError`; otherwise the caller's user id. */
  function Authenticate(
    authorization: Option<seq<byte>>,
    base64Decode: string -> Option<seq<byte>>,
    utf8Decode: seq<byte> -> Option<string>,
    validateCredentials: Credentials -> AuthOutcome
  ): (r: Result<UserId, PublishError>)
    ensures var c := BasicAuthentication(authorization, base64Decode, utf8Decode);
      && (r.Ok? <==> c.Ok? && validateCredentials(c.value).Authenticated?)
      && (r.Ok? ==> r.value == validateCredentials(c.value).userId)
      && (r.Err? && r.error.UnexpectedError? <==> c.Ok? && validateCredentials(c.value).UnexpectedError?)
  {
    match BasicAuthentication(authorization, base64Decode, utf8Decode)
    case Err(cause) => Err(AuthError(cause))
    case Ok(credentials) =>
      match validateCredentials(credentials)
      case Authenticated(userId) => Ok(userId)
      case InvalidCredentials(cause) => Err(AuthError(cause))
      case UnexpectedError(cause) => Err(PublishError.UnexpectedError(cause))
  }

  /** Whatever step of the extraction fails, the caller gets a 401 that
      challenges for Basic credentials. */
  lemma ExtractionFailureIsUnauthorized(
    authorization: Option<seq<byte>>,
    base64Decode: string -> Option<seq<byte>>,
    utf8Decode: seq<byte> -> Option<string>,
    validateCredentials: Credentials -> AuthOutcome)
    requires BasicAuthentication(authorization, base64Decode, utf8Decode).Err?
    ensures Authenticate(authorization, base64Decode, utf8Decode, validateCredentials).Err?
    ensures IntoResponse(Authenticate(authorization, base64Decode, utf8Decode, validateCredentials).error) ==
      Response(UNAUTHORIZED, Some(PublishChallenge))
  {
  }

  // ---------------------------------------------------------------------------
  // `get_confirmed_subscribers`
  // ---------------------------------------------------------------------------

  /** A confirmed subscriber whose stored email parsed. */
  datatype ConfirmedSubscriber = ConfirmedSubscriber(email: string)

  /** One element of the vector `get_confirmed_subscribers` collects. */
  type Entry = Result<ConfirmedSubscriber, string>

  /** `WHERE status = 'confirmed'`: the confirmed rows, each as often as it
      is stored, in the order of `rows` (the SELECT has no `ORDER BY`; the
      model fixes the fetch order to that of `rows`). */
  function ConfirmedRows(rows: seq<Subscription>): (r: seq<Subscription>)
    ensures |r| <= |rows|
  {
    if rows == [] then []
    else (if rows[0].status == CONFIRMED then [rows[0]] else []) + ConfirmedRows(rows[1..])
  }

  /** Each confirmed row is listed as often as it is stored, and no other
      row is listed. */
  lemma {:induction false} ConfirmedRowsCount(rows: seq<Subscription>, x: Subscription)
    ensures multiset(ConfirmedRows(rows))[x] == if x.status == CONFIRMED then multiset(rows)[x] else 0
  {
    if rows != [] {
      assert rows == [rows[0]] + rows[1..];
      ConfirmedRowsCount(rows[1..], x);
    }
  }

  /** The filter keeps the order of `rows`. */
  lemma {:induction false} ConfirmedRowsAppend(a: seq<Subscription>, b: seq<Subscription>)
    ensures ConfirmedRows(a + b) == ConfirmedRows(a) + ConfirmedRows(b)
  {
    if a == [] {
      assert a + b == b;
    } else {
      var head := if a[0].status == CONFIRMED then [a[0]] else [];
      assert (a + b)[0] == a[0];
      assert (a + b)[1..] == a[1..] + b;
      assert ConfirmedRows(a + b) == head + ConfirmedRows(a[1..] + b);
      ConfirmedRowsAppend(a[1..], b);
      assert ConfirmedRows(a) == head + ConfirmedRows(a[1..]);
    }
  }

  /** The `.map` over the fetched rows: a row whose email fails to parse
      becomes an `Err` entry instead of failing the query. */
  function ToEntry(row: Subscription, parseEmail: string -> Result<string, string>): (r: Entry)
    ensures r.Ok? <==> parseEmail(row.email).Ok?
    ensures r.Ok? ==> r.value.email == parseEmail(row.email).value
    ensures r.Err? ==> r.error == parseEmail(row.email).error
  {
    match parseEmail(row.email)
    case Ok(email) => Ok(ConfirmedSubscriber(email))
    case Err(error) => Err(error)
  }

  /** `get_confirmed_subscribers`: fails only when the SELECT fails; then
      one entry per confirmed row. */
  function GetConfirmedSubscribers(
    rows: seq<Subscription>,
    fetch: DbOutcome,
    parseEmail: string -> Result<string, string>
  ): (r: Result<seq<Entry>, PublishError>)
    ensures r.Err? <==> fetch.Failed?
    ensures r.Err? ==> r.error.UnexpectedError?
    ensures r.Ok? ==> |r.value| == |ConfirmedRows(rows)|
    ensures r.Ok? ==>
      forall i :: 0 <= i < |r.value| ==> r.value[i] == ToEntry(ConfirmedRows(rows)[i], parseEmail)
  {
    match fetch
    case Failed => Err(PublishError.UnexpectedError("sqlx::Error"))
    case Succeeded =>
      var confirmed := ConfirmedRows(rows);
      Ok(seq(|confirmed|, i requires 0 <= i < |confirmed| => ToEntry(confirmed[i], parseEmail)))
  }

  /** A subscriber whose status is not 'confirmed' yields no entry; only
      rows that are confirmed do. */
  lemma PendingSubscribersAreNotListed(rows: seq<Subscription>, parseEmail: string -> Result<string, string>,
                                       x: Subscription)
    requires x.status != CONFIRMED
    ensures x !in ConfirmedRows(rows)
    ensures forall y :: y in ConfirmedRows(rows) ==> y in rows && y.status == CONFIRMED
  {
    ConfirmedRowsCount(rows, x);
    forall y | y in ConfirmedRows(rows) ensures y in rows && y.status == CONFIRMED {
      ConfirmedRowsCount(rows, y);
    }
  }

  // ---------------------------------------------------------------------------
  // The fan-out of `publish_newsletter`
  // ---------------------------------------------------------------------------

  /** The JSON body: a title and the content as text and as HTML. */
  datatype BodyData = BodyData(title: string, text: string, html: string)

  /** One call of `send_email`, with its four arguments in the order the call
      passes them: the subscriber's email, the title, the text body and the
      HTML body. `send_email`'s own signature is not part of this model, so
      which parameter receives which body is not checked here. */
  datatype SentEmail = SentEmail(recipient: string, title: string, text: string, html: string)

  /** The emails of the `Ok` entries, in order. */
  function OkEmails(entries: seq<Entry>): (r: seq<string>)
    ensures |r| <= |entries|
  {
    if entries == [] then []
    else
      var last := entries[|entries| - 1];
      OkEmails(entries[..|entries| - 1]) + (if last.Ok? then [last.value.email] else [])
  }

  lemma {:induction false} OkEmailsOfPrefix(entries: seq<Entry>, i: nat)
    requires i <= |entries|
    ensures OkEmails(entries[..i]) <= OkEmails(entries)
    decreases |entries| - i
  {
    if i < |entries| {
      OkEmailsOfPrefix(entries, i + 1);
      assert entries[..i + 1][..i] == entries[..i];
    } else {
      assert entries[..i] == entries;
    }
  }

  /** `OkEmails` lists exactly the emails of the `Ok` entries. */
  lemma {:induction false} OkEmailsMembership(entries: seq<Entry>, x: string)
    ensures x in OkEmails(entries) <==> exists i :: 0 <= i < |entries| && entries[i] == Ok(ConfirmedSubscriber(x))
  {
    if entries != [] {
      var n := |entries| - 1;
      var init := entries[..n];
      OkEmailsMembership(init, x);
      assert forall i :: 0 <= i < n ==> init[i] == entries[i];
      if x in OkEmails(entries) && x !in OkEmails(init) {
        assert entries[n] == Ok(ConfirmedSubscriber(x));
      }
      if entries[n] == Ok(ConfirmedSubscriber(x)) {
        assert x in OkEmails(entries);
      }
    }
  }

  /** `x` is the parsed email of a stored row whose status is 'confirmed'. */
  ghost predicate IsConfirmedRecipient(rows: seq<Subscription>, parseEmail: string -> Result<string, string>, x: string) {
    exists y :: y in rows && y.status == CONFIRMED && parseEmail(y.email) == Ok(x)
  }

  /** Every valid recipient the confirmed-subscriber query yields is the
      parsed email of a stored row whose status is 'confirmed'; and every such
      row whose email parses is a recipient. */
  lemma RecipientsAreConfirmed(rows: seq<Subscription>, parseEmail: string -> Result<string, string>, x: string)
    ensures x in OkEmails(GetConfirmedSubscribers(rows, Succeeded, parseEmail).value) <==>
      exists y :: y in ConfirmedRows(rows) && parseEmail(y.email) == Ok(x)
    ensures x in OkEmails(GetConfirmedSubscribers(rows, Succeeded, parseEmail).value) ==>
      IsConfirmedRecipient(rows, parseEmail, x)
  {
    var confirmed := ConfirmedRows(rows);
    var entries := GetConfirmedSubscribers(rows, Succeeded, parseEmail).value;
    OkEmailsMembership(entries, x);
    if x in OkEmails(entries) {
      var i :| 0 <= i < |entries| && entries[i] == Ok(ConfirmedSubscriber(x));
      var y := confirmed[i];
      assert parseEmail(y.email) == Ok(x);
      ConfirmedRowsCount(rows, y);
      assert y in rows && y.status == CONFIRMED;
    }
    if y :| y in confirmed && parseEmail(y.email) == Ok(x) {
      var i :| 0 <= i < |confirmed| && confirmed[i] == y;
      assert entries[i] == Ok(ConfirmedSubscriber(x));
    }
  }

  /** `sent` is the start of the issue's delivery to `emails`, in order and
      with the arguments in the order `send_email` takes them. */
  ghost predicate SentInOrder(sent: seq<SentEmail>, emails: seq<string>, body: BodyData) {
    && |sent| <= |emails|
    && forall k :: 0 <= k < |sent| ==> sent[k] == SentEmail(emails[k], body.title, body.text, body.html)
  }

  /** A log of sends in the order of the confirmed subscribers reaches only
      stored, confirmed rows whose email parses. */
  lemma SentOnlyToConfirmed(rows: seq<Subscription>, parseEmail: string -> Result<string, string>,
                            body: BodyData, sent: seq<SentEmail>)
    requires SentInOrder(sent, OkEmails(GetConfirmedSubscribers(rows, Succeeded, parseEmail).value), body)
    ensures forall k :: 0 <= k < |sent| ==>
      IsConfirmedRecipient(rows, parseEmail, sent[k].recipient)
  {
    var emails := OkEmails(GetConfirmedSubscribers(rows, Succeeded, parseEmail).value);
    forall k | 0 <= k < |sent|
      ensures IsConfirmedRecipient(rows, parseEmail, sent[k].recipient)
    {
      assert sent[k].recipient == emails[k];
      assert emails[k] in emails;
      RecipientsAreConfirmed(rows, parseEmail, emails[k]);
    }
  }

  /** The loop of `publish_newsletter`. `gateway(k)` is whether the k-th call
      of `send_email` succeeds; `sent` is the log of the calls made, the
      failing one included. Entries with invalid emails are skipped, every
      `Ok` entry gets the issue once, in order, and the first failing send
      stops the loop, so no later subscriber is tried. */
  method SendToAll(entries: seq<Entry>, body: BodyData, gateway: nat -> bool)
    returns (result: Result<StatusCode, PublishError>, sent: seq<SentEmail>)
    ensures SentInOrder(sent, OkEmails(entries), body)
    ensures result.Ok? <==> forall k :: 0 <= k < |OkEmails(entries)| ==> gateway(k)
    ensures result.Ok? ==> result.value == OK && |sent| == |OkEmails(entries)|
    ensures result.Err? ==>
      && result.error.UnexpectedError?
      && 0 < |sent|
      && !gateway(|sent| - 1)
      && forall k :: 0 <= k < |sent| - 1 ==> gateway(k)
  {
    sent := [];
    for i := 0 to |entries|
      invariant |sent| == |OkEmails(entries[..i])|
      invariant forall k :: 0 <= k < |sent| ==>
        sent[k] == SentEmail(OkEmails(entries[..i])[k], body.title, body.text, body.html)
      invariant forall k :: 0 <= k < |sent| ==> gateway(k)
    {
      assert entries[..i + 1][..i] == entries[..i];
      match entries[i] {
        case Ok(subscriber) =>
          var delivered := gateway(|sent|);
          sent := sent + [SentEmail(subscriber.email, body.title, body.text, body.html)];
          if !delivered {
            OkEmailsOfPrefix(entries, i + 1);
            return Err(PublishError.UnexpectedError("Failed to send email to " + subscriber.email)), sent;
          }
        case Err(_) =>
          // The stored email is invalid: the subscriber is skipped.
      }
    }
    assert entries[..|entries|] == entries;
    return Ok(OK), sent;
  }

  /** `publish_newsletter`: nothing is sent unless the caller is
      authenticated and the subscribers were read; then the fan-out of
      `SendToAll` over the confirmed subscribers, in the order of
      `store.rows`. Every recipient is the parsed email of a stored,
      confirmed row, so a pending subscriber is never sent the issue. */
  method PublishNewsletter(
    store: Store,
    authorization: Option<seq<byte>>,
    base64Decode: string -> Option<seq<byte>>,
    utf8Decode: seq<byte> -> Option<string>,
    validateCredentials: Credentials -> AuthOutcome,
    fetch: DbOutcome,
    parseEmail: string -> Result<string, string>,
    body: BodyData,
    gateway: nat -> bool
  ) returns (result: Result<StatusCode, PublishError>, sent: seq<SentEmail>)
    ensures forall k :: 0 <= k < |sent| ==>
      IsConfirmedRecipient(store.rows, parseEmail, sent[k].recipient)
    ensures var auth := Authenticate(authorization, base64Decode, utf8Decode, validateCredentials);
      auth.Err? ==> result == Err(auth.error) && sent == []
    ensures BasicAuthentication(authorization, base64Decode, utf8Decode).Err? ==>
      result.Err? && result.error.AuthError? && sent == []
    ensures Authenticate(authorization, base64Decode, utf8Decode, validateCredentials).Ok? && fetch.Failed? ==>
      result.Err? && result.error.UnexpectedError? && sent == []
    ensures Authenticate(authorization, base64Decode, utf8Decode, validateCredentials).Ok? && fetch.Succeeded? ==>
      var emails := OkEmails(GetConfirmedSubscribers(store.rows, fetch, parseEmail).value);
      && SentInOrder(sent, emails, body)
      && (result.Ok? <==> forall k :: 0 <= k < |emails| ==> gateway(k))
      && (result.Ok? ==> result.value == OK && |sent| == |emails|)
      && (result.Err? ==>
            && result.error.UnexpectedError?
            && 0 < |sent|
            && !gateway(|sent| - 1)
            && forall k :: 0 <= k < |sent| - 1 ==> gateway(k))
  {
    var userId := Authenticate(authorization, base64Decode, utf8Decode, validateCredentials);
    if userId.Err? {
      return Err(userId.error), [];
    }
    var subscribers := GetConfirmedSubscribers(store.rows, fetch, parseEmail);
    if subscribers.Err? {
      return Err(subscribers.error), [];
    }
    assert fetch == Succeeded;
    ghost var emails := OkEmails(subscribers.value);
    result, sent := SendToAll(subscribers.value, body, gateway);
    assert SentInOrder(sent, emails, body);
    SentOnlyToConfirmed(store.rows, parseEmail, body, sent);
  }
}
