/** `change_password` (src/routes/admin/password/post.rs): a fixed chain of
    guards, each with its own message, in front of the one call that stores
    the new password. The session lookup, `get_username`,
    `validate_credentials` and `authentication::change_password` are oracles;
    the handler's result records the response and the oracle calls it made,
    in order. */
module AdminPassword {
  import opened Wrappers
  import opened Http
  import opened Authentication

  // ---------------------------------------------------------------------------
  // Password length in bytes
  // ---------------------------------------------------------------------------

  /** The number of bytes UTF-8 uses for `c` (a Unicode scalar value). */
  function Utf8Width(c: char): (n: nat)
    ensures 1 <= n <= 4
    ensures n == 1 <==> (c as int) < 0x80
  {
    var v := c as int;
    if v < 0x80 then 1 else if v < 0x800 then 2 else if v < 0x1_0000 then 3 else 4
  }

  /** `String::len`: the length of the UTF-8 encoding, in bytes. */
  function Utf8Length(s: string): (n: nat)
    ensures |s| <= n <= 4 * |s|
  {
    if s == [] then 0 else Utf8Width(s[0]) + Utf8Length(s[1..])
  }

  /** For ASCII text, bytes and characters coincide. */
  lemma {:induction false} AsciiUtf8Length(s: string)
    requires forall i :: 0 <= i < |s| ==> (s[i] as int) < 0x80
    ensures Utf8Length(s) == |s|
  {
    if s != [] {
      AsciiUtf8Length(s[1..]);
    }
  }

  const MinimumLength: nat := 12
  const MaximumLength: nat := 128

  /** `new_password_is_too_short`: under 12 bytes, which only a password of
      fewer than 12 characters can be. */
  function NewPasswordIsTooShort(password: string): (r: bool)
    ensures r <==> Utf8Length(password) < MinimumLength
    ensures r ==> |password| < MinimumLength
  {
    Utf8Length(password) < MinimumLength
  }

  /** `new_password_is_too_long`: over 128 bytes, which only a password of
      more than 32 characters can be. */
  function NewPasswordIsTooLong(password: string): (r: bool)
    ensures r <==> Utf8Length(password) > MaximumLength
    ensures r ==> |password| > MaximumLength / 4
  {
    Utf8Length(password) > MaximumLength
  }

  /** The two length guards let through exactly the byte lengths 12 to 128;
      the 128 limit is never reached by fewer than 33 characters, and the
      12 minimum is met by any 12 characters and by some shorter strings. */
  lemma LengthGuards(password: string)
    ensures !NewPasswordIsTooShort(password) && !NewPasswordIsTooLong(password) <==>
      MinimumLength <= Utf8Length(password) <= MaximumLength
    ensures |password| >= 12 ==> !NewPasswordIsTooShort(password)
    ensures |password| <= 32 ==> !NewPasswordIsTooLong(password)
  {
  }

  /** The minimum counts bytes, not characters: six two-byte characters pass. */
  lemma SixTwoByteCharactersAreLongEnough()
    ensures !NewPasswordIsTooShort("\U{00E9}\U{00E9}\U{00E9}\U{00E9}\U{00E9}\U{00E9}")
  {
    var s := "\U{00E9}\U{00E9}\U{00E9}\U{00E9}\U{00E9}\U{00E9}";
    assert Utf8Width('\U{00E9}') == 2;
    assert s[1..][1..][1..][1..][1..][1..] == [];
  }

  // ---------------------------------------------------------------------------
  // Responses and oracle calls
  // ---------------------------------------------------------------------------

  const PasswordsDiffer: string := "You entered two different new passwords - the field values must match."
  const UsernameLookupFailed: string := "Failed to get username from database"
  const CurrentPasswordIsIncorrect: string := "The current password is incorrect."
  const UnexpectedErrorOccurred: string := "An unexpected error occurred."
  const NewPasswordTooShort: string := "The new password is too short - 12 character minimum"
  const NewPasswordTooLong: string := "The new password is too long 128 character maximum"
  const PasswordChangeFailed: string := "Failed to change password"
  const PasswordChanged: string := "Your password has been changed."

  const LoginPath: string := "/login"
  const PasswordPath: string := "/admin/password"

  /** The submitted form. */
  datatype FormData = FormData(currentPassword: string, newPassword: string, newPasswordCheck: string)

  /** The status, the `Location` header, and the `cperror` cookie the
      response adds to the jar, if any. */
  datatype Response = Response(status: StatusCode, location: string, cperror: Option<string>)

  /** A call the handler makes to code outside the model. */
  datatype Call =
    | LookUpUsername(userId: UserId)
    | CheckCredentials(credentials: Credentials)
    | StorePassword(userId: UserId, newPassword: string)

  datatype Outcome = Outcome(response: Response, calls: seq<Call>)

  /** `change_password_error_response`: back to the form, with the message
      in the `cperror` cookie. */
  function ChangePasswordErrorResponse(message: string): (r: Response)
    ensures r.status == SEE_OTHER && r.location == PasswordPath && r.cperror == Some(message)
  {
    Response(SEE_OTHER, PasswordPath, Some(message))
  }

  // ---------------------------------------------------------------------------
  // `change_password`
  // ---------------------------------------------------------------------------

  /** `change_password`. `session` is the `user_id` the session holds;
      `getUsername`, `validateCredentials` and `changePassword` give the
      results of the calls of the same names. */
  function ChangePassword(
    session: Option<UserId>,
    form: FormData,
    getUsername: UserId -> Result<string, string>,
    validateCredentials: Credentials -> AuthOutcome,
    changePassword: (UserId, string) -> bool
  ): (r: Outcome)
    ensures r.response.status == SEE_OTHER
    ensures session.None? <==> r.response.location == LoginPath
    ensures session.None? ==> r.calls == [] && r.response.cperror.None?
    ensures session.Some? ==> r.response.location == PasswordPath && r.response.cperror.Some?
    ensures session.Some? && form.newPassword != form.newPasswordCheck ==>
      r.calls == [] && r.response.cperror == Some(PasswordsDiffer)
    ensures (exists k :: 0 <= k < |r.calls| && r.calls[k].StorePassword?) <==>
      GuardsPass(session, form, getUsername, validateCredentials)
    ensures GuardsPass(session, form, getUsername, validateCredentials) ==>
      && r.calls[|r.calls| - 1] == StorePassword(session.value, form.newPassword)
      && (r.response.cperror == Some(PasswordChanged) <==> changePassword(session.value, form.newPassword))
    ensures r.response.cperror == Some(PasswordChanged) ==>
      GuardsPass(session, form, getUsername, validateCredentials) && changePassword(session.value, form.newPassword)
  {
    match session
    case None => Outcome(Response(SEE_OTHER, LoginPath, None), [])
    case Some(userId) =>
      if form.newPassword != form.newPasswordCheck then
        Outcome(ChangePasswordErrorResponse(PasswordsDiffer), [])
      else
        var looked := [LookUpUsername(userId)];
        match getUsername(userId)
        case Err(_) => Outcome(ChangePasswordErrorResponse(UsernameLookupFailed), looked)
        case Ok(username) =>
          var credentials := Credentials(username, form.currentPassword);
          var checked := looked + [CheckCredentials(credentials)];
          match validateCredentials(credentials)
          case InvalidCredentials(_) => Outcome(ChangePasswordErrorResponse(CurrentPasswordIsIncorrect), checked)
          case UnexpectedError(_) => Outcome(ChangePasswordErrorResponse(UnexpectedErrorOccurred), checked)
          case Authenticated(_) =>
            if NewPasswordIsTooShort(form.newPassword) then
              Outcome(ChangePasswordErrorResponse(NewPasswordTooShort), checked)
            else if NewPasswordIsTooLong(form.newPassword) then
              Outcome(ChangePasswordErrorResponse(NewPasswordTooLong), checked)
            else
              var all := checked + [StorePassword(userId, form.newPassword)];
              assert all[2].StorePassword?;
              if changePassword(userId, form.newPassword) then
                Outcome(Response(SEE_OTHER, PasswordPath, Some(PasswordChanged)), all)
              else
                Outcome(ChangePasswordErrorResponse(PasswordChangeFailed), all)
  }

  /** Every guard in front of the password change passes. */
  ghost predicate GuardsPass(
    session: Option<UserId>,
    form: FormData,
    getUsername: UserId -> Result<string, string>,
    validateCredentials: Credentials -> AuthOutcome)
  {
    && session.Some?
    && form.newPassword == form.newPasswordCheck
    && getUsername(session.value).Ok?
    && validateCredentials(Credentials(getUsername(session.value).value, form.currentPassword)).Authenticated?
    && MinimumLength <= Utf8Length(form.newPassword) <= MaximumLength
  }

  // ---------------------------------------------------------------------------
  // The guards as a list
  // ---------------------------------------------------------------------------

  /** A guard: whether it passes, and the message it answers with if not. */
  datatype Guard = Guard(passes: bool, message: string)

  /** The message of the first guard that fails. */
  function FirstFailure(guards: seq<Guard>): (r: Option<string>)
    ensures r.None? <==> forall k :: 0 <= k < |guards| ==> guards[k].passes
  {
    if guards == [] then None
    else if !guards[0].passes then Some(guards[0].message)
    else
      var rest := FirstFailure(guards[1..]);
      assert forall k :: 1 <= k < |guards| ==> guards[k] == guards[1..][k - 1];
      rest
  }

  /** The message `FirstFailure` gives is that of a failing guard all of
      whose predecessors pass. */
  lemma {:induction false} FirstFailureIsFirst(guards: seq<Guard>)
    requires FirstFailure(guards).Some?
    ensures exists k ::
      && 0 <= k < |guards|
      && !guards[k].passes
      && FirstFailure(guards).value == guards[k].message
      && (forall j :: 0 <= j < k ==> guards[j].passes)
  {
    if guards[0].passes {
      FirstFailureIsFirst(guards[1..]);
      var k :| 0 <= k < |guards[1..]| && !guards[1..][k].passes && FirstFailure(guards[1..]).value == guards[1..][k].message &&
        forall j :: 0 <= j < k ==> guards[1..][j].passes;
      assert forall j :: 0 <= j < k + 1 ==> guards[j].passes by {
        assert forall j :: 1 <= j < k + 1 ==> guards[j] == guards[1..][j - 1];
      }
      assert !guards[k + 1].passes && FirstFailure(guards).value == guards[k + 1].message;
    } else {
      assert !guards[0].passes && FirstFailure(guards).value == guards[0].message;
    }
  }

  /** The guards of a signed-in user's request, in the order the handler
      runs them, the password change last. A guard that needs the result of
      an earlier one counts as passing when that one failed; it is never
      reached then. */
  function GuardChain(
    userId: UserId,
    form: FormData,
    getUsername: UserId -> Result<string, string>,
    validateCredentials: Credentials -> AuthOutcome,
    changePassword: (UserId, string) -> bool
  ): (r: seq<Guard>)
    ensures |r| == 7
    ensures (forall k :: 0 <= k < |r| ==> r[k].passes) <==>
      GuardsPass(Some(userId), form, getUsername, validateCredentials) && changePassword(userId, form.newPassword)
  {
    var username := getUsername(userId);
    var validation :=
      if username.Ok? then validateCredentials(Credentials(username.value, form.currentPassword))
      else Authenticated(userId);
    var guards :=
      [ Guard(form.newPassword == form.newPasswordCheck, PasswordsDiffer),
        Guard(username.Ok?, UsernameLookupFailed),
        Guard(!validation.InvalidCredentials?, CurrentPasswordIsIncorrect),
        Guard(!validation.UnexpectedError?, UnexpectedErrorOccurred),
        Guard(!NewPasswordIsTooShort(form.newPassword), NewPasswordTooShort),
        Guard(!NewPasswordIsTooLong(form.newPassword), NewPasswordTooLong),
        Guard(changePassword(userId, form.newPassword), PasswordChangeFailed) ];
    assert (forall k :: 0 <= k < |guards| ==> guards[k].passes) <==>
      guards[0].passes && guards[1].passes && guards[2].passes && guards[3].passes &&
      guards[4].passes && guards[5].passes && guards[6].passes;
    guards
  }

  /** For a signed-in user the first failing guard, in the fixed order,
      decides the message; only when all pass is the password changed. */
  lemma FirstFailingGuardDecides(
    userId: UserId,
    form: FormData,
    getUsername: UserId -> Result<string, string>,
    validateCredentials: Credentials -> AuthOutcome,
    changePassword: (UserId, string) -> bool)
    ensures
      var guards := GuardChain(userId, form, getUsername, validateCredentials, changePassword);
      var r := ChangePassword(Some(userId), form, getUsername, validateCredentials, changePassword);
      r.response.cperror == Some(match FirstFailure(guards) case Some(m) => m case None => PasswordChanged)
  {
    var g0 := GuardChain(userId, form, getUsername, validateCredentials, changePassword);
    var g1 := g0[1..];
    var g2 := g1[1..];
    var g3 := g2[1..];
    var g4 := g3[1..];
    var g5 := g4[1..];
    var g6 := g5[1..];
    assert FirstFailure(g6) == if g6[0].passes then None else Some(g6[0].message) by {
      assert g6[1..] == [];
    }
    assert FirstFailure(g5) == if g5[0].passes then FirstFailure(g6) else Some(g5[0].message);
    assert FirstFailure(g4) == if g4[0].passes then FirstFailure(g5) else Some(g4[0].message);
    assert FirstFailure(g3) == if g3[0].passes then FirstFailure(g4) else Some(g3[0].message);
    assert FirstFailure(g2) == if g2[0].passes then FirstFailure(g3) else Some(g2[0].message);
    assert FirstFailure(g1) == if g1[0].passes then FirstFailure(g2) else Some(g1[0].message);
    assert FirstFailure(g0) == if g0[0].passes then FirstFailure(g1) else Some(g0[0].message);
  }
}
