/** The client's zod form schemas. A string schema runs every one of its
    checks and collects an issue per failed check; an object collects its
    fields' issues in declaration order, and an object-level `refine` still
    runs when only such checks failed. The `.email()` check is an input
    flag: its pattern depends on the zod release. */
module FormSchemas {
  import opened Common
  import Validator

  datatype Issue = Issue(path: string, message: string)

  /** The outcome of a parse that applies defaults. */
  datatype Parsed<T> = Success(value: T) | Failure(issues: seq<Issue>)

  function MinCheck(path: string, s: string, n: nat, message: string): (issues: seq<Issue>)
    ensures issues == [] <==> |s| >= n
    ensures issues != [] ==> issues == [Issue(path, message)]
  {
    if |s| < n then [Issue(path, message)] else []
  }

  function MaxCheck(path: string, s: string, n: nat, message: string): (issues: seq<Issue>)
    ensures issues == [] <==> |s| <= n
    ensures issues != [] ==> issues == [Issue(path, message)]
  {
    if |s| > n then [Issue(path, message)] else []
  }

  function EmailCheck(path: string, emailOk: bool): (issues: seq<Issue>)
    ensures issues == [] <==> emailOk
  {
    if emailOk then [] else [Issue(path, "Invalid email address")]
  }

  const MinPassword: nat := 6

  /** `loginSchema`. */
  function LoginIssues(email: string, password: string, emailOk: bool): (issues: seq<Issue>)
    ensures issues == [] <==> emailOk && |password| >= MinPassword
    ensures !emailOk ==> issues[0] == Issue("email", "Invalid email address")
    ensures |password| < MinPassword ==>
              issues[|issues| - 1] == Issue("password", "Password must be at least 6 characters")
  {
    EmailCheck("email", emailOk)
    + MinCheck("password", password, MinPassword, "Password must be at least 6 characters")
  }

  /** The `refine` of `registerSchema`. */
  function PasswordsMatch(password: string, confirmPassword: string): (issues: seq<Issue>)
    ensures issues == [] <==> password == confirmPassword
  {
    if password == confirmPassword then []
    else [Issue("confirmPassword", "Passwords don't match")]
  }

  /** `registerSchema`: the field checks, then the password match. */
  function RegisterIssues(username: string, email: string, password: string,
                          confirmPassword: string, emailOk: bool): (issues: seq<Issue>)
    ensures issues == [] <==>
              3 <= |username| <= 20 && emailOk && |password| >= MinPassword
              && password == confirmPassword
    ensures password != confirmPassword ==>
              issues != [] && issues[|issues| - 1] == Issue("confirmPassword", "Passwords don't match")
    ensures forall i :: 0 <= i < |issues| ==>
              issues[i].path in {"username", "email", "password", "confirmPassword"}
  {
    MinCheck("username", username, 3, "Username must be at least 3 characters")
    + MaxCheck("username", username, 20, "Username must be less than 20 characters")
    + EmailCheck("email", emailOk)
    + MinCheck("password", password, MinPassword, "Password must be at least 6 characters")
    + PasswordsMatch(password, confirmPassword)
  }

  datatype CreateRoomData = CreateRoomData(name: string, description: Option<string>, isPrivate: bool)

  /** `createRoomSchema`, with `is_private` defaulting to false. */
  function ParseCreateRoom(name: string, description: Option<string>, isPrivate: Option<bool>)
    : (r: Parsed<CreateRoomData>)
    ensures r.Success? <==>
              1 <= |name| <= 50 && (description.Some? ==> |description.value| <= 200)
    ensures r.Success? ==> r.value.name == name && r.value.description == description
    ensures r.Success? ==> (r.value.isPrivate <==> isPrivate == Some(true))
  {
    var issues :=
      MinCheck("name", name, 1, "Room name is required")
      + MaxCheck("name", name, 50, "Room name must be less than 50 characters")
      + (match description
         case None => []
         case Some(d) => MaxCheck("description", d, 200, "Description must be less than 200 characters"));
    if issues == [] then
      Success(CreateRoomData(name, description, match isPrivate case Some(b) => b case None => false))
    else
      Failure(issues)
  }

  /** The client's room-name rule and the server's `validateCreateRoom`
      accept exactly the same names. */
  lemma RoomNameRulesAgree(name: string)
    ensures ParseCreateRoom(name, None, None).Success? <==>
              Validator.ValidateCreateRoom(Some(name)).Next?
  {
  }

  /** Every registration the server accepts passes the form's username,
      password and confirmation checks: the form then accepts it exactly
      when its own email check does. */
  lemma ServerRegisterPassesClient(username: string, email: string, password: string, emailOk: bool)
    requires Validator.ValidateRegister(Some(username), Some(email), Some(password)).Next?
    ensures RegisterIssues(username, email, password, password, emailOk) == [] <==> emailOk
    ensures !emailOk ==> RegisterIssues(username, email, password, password, emailOk)
                           == [Issue("email", "Invalid email address")]
  {
  }

  /** The converse fails: the client has no character rule for usernames. */
  lemma ClientAcceptsUsernameServerRejects()
    ensures RegisterIssues("a-b", "a@b.co", "secret", "secret", true) == []
    ensures Validator.ValidateRegister(Some("a-b"), Some("a@b.co"), Some("secret"))
              == Validator.Reject(400, "Username can only contain letters, numbers, and underscores")
  {
    assert !IsWordChar("a-b"[1]);
  }
}
