/** The request validators of the REST layer. Each check is an ordered chain
    of early returns; an Express wrapper either answers 400 with the first
    failing check's message or passes the request on (`next()`). */
module Validator {
  import opened Common

  /** The outcome of a request validator. */
  datatype Verdict = Next | Reject(status: int, message: string)

  /** The `{ valid, message? }` records returned by the string checks. */
  datatype Check = Check(valid: bool, message: Option<string>)

  /** A request-body field that may be absent, a string, or a JSON value of
      another type (which JavaScript treats as truthy or falsy). */
  datatype Field = Absent | Text(text: string) | NonText(truthy: bool)

  // ------------------------------------------------------------ isValidEmail

  /** Characters of the class `[^\s@]`. */
  predicate EmailChar(c: char) { !IsWhitespace(c) && c != '@' }

  predicate EmailRun(s: string) {
    s != [] && forall i :: 0 <= i < |s| ==> EmailChar(s[i])
  }

  function IndexOf(s: string, c: char): (r: Option<nat>)
    ensures r.None? <==> c !in s
    ensures r.Some? ==> r.value < |s| && s[r.value] == c && c !in s[..r.value]
  {
    if s == [] then None
    else if s[0] == c then Some(0)
    else match IndexOf(s[1..], c)
      case None => None
      case Some(k) => assert s[1..][..k] == s[1..k + 1]; Some(k + 1)
  }

  /** `/^[^\s@]+@[^\s@]+\.[^\s@]+$/.test(email)`: the `@` must be the only
      one; after it comes a run that has a `.` neither first nor last. */
  function IsValidEmail(email: string): bool {
    match IndexOf(email, '@')
    case None => false
    case Some(at) =>
      var domain := email[at + 1..];
      && EmailRun(email[..at])
      && EmailRun(domain)
      && exists k :: 0 < k < |domain| - 1 && domain[k] == '.'
  }

  /** The regular expression's own reading: `A@B.C` with three non-empty
      runs free of blanks and `@`. */
  ghost predicate EmailShape(email: string) {
    exists a, b, c :: EmailRun(a) && EmailRun(b) && EmailRun(c) && email == a + "@" + b + "." + c
  }

  lemma EmailRunConcat(a: string, b: string)
    requires EmailRun(a) && EmailRun(b)
    ensures EmailRun(a + "." + b)
  {
    var s := a + "." + b;
    forall i | 0 <= i < |s| ensures EmailChar(s[i]) {
      if i < |a| { assert s[i] == a[i]; }
      else if i > |a| { assert s[i] == b[i - |a| - 1]; }
    }
  }

  lemma ValidEmailHasShape(email: string)
    requires IsValidEmail(email)
    ensures EmailShape(email)
  {
    var at := IndexOf(email, '@').value;
    var domain := email[at + 1..];
    var k :| 0 < k < |domain| - 1 && domain[k] == '.';
    var a, b, c := email[..at], domain[..k], domain[k + 1..];
    assert domain == b + "." + c;
    assert email == a + "@" + b + "." + c;
    assert EmailRun(b) by {
      forall i | 0 <= i < |b| ensures EmailChar(b[i]) { assert b[i] == domain[i]; }
    }
    assert EmailRun(c) by {
      forall i | 0 <= i < |c| ensures EmailChar(c[i]) { assert c[i] == domain[k + 1 + i]; }
    }
  }

  lemma ShapeIsValidEmail(a: string, b: string, c: string)
    requires EmailRun(a) && EmailRun(b) && EmailRun(c)
    ensures IsValidEmail(a + "@" + b + "." + c)
  {
    var email := a + "@" + b + "." + c;
    var domain := b + "." + c;
    assert email == a + "@" + domain;
    assert email[|a|] == '@';
    assert email[..|a|] == a;
    var at := IndexOf(email, '@');
    assert at == Some(|a|);
    assert email[|a| + 1..] == domain;
    EmailRunConcat(b, c);
    assert domain[|b|] == '.';
  }

  /** The scanner accepts exactly the strings of the regular expression. */
  lemma IsValidEmailMeansShape(email: string)
    ensures IsValidEmail(email) <==> EmailShape(email)
  {
    if IsValidEmail(email) {
      ValidEmailHasShape(email);
    }
    if EmailShape(email) {
      var a, b, c :| EmailRun(a) && EmailRun(b) && EmailRun(c) && email == a + "@" + b + "." + c;
      ShapeIsValidEmail(a, b, c);
    }
  }

  /** An accepted address holds exactly one `@`, and a `.` after it. */
  lemma ValidEmailSingleAt(email: string)
    requires IsValidEmail(email)
    ensures multiset(email)['@'] == 1
    ensures exists i, j :: 0 <= i < j < |email| && email[i] == '@' && email[j] == '.'
  {
    var at := IndexOf(email, '@').value;
    var domain := email[at + 1..];
    var k :| 0 < k < |domain| - 1 && domain[k] == '.';
    assert email[at + 1 + k] == '.';
    assert email == email[..at] + [email[at]] + domain;
    assert '@' !in email[..at];
    assert '@' !in domain;
    assert multiset(email) == multiset(email[..at]) + multiset{'@'} + multiset(domain);
  }

  // -------------------------------------------------------- isStrongPassword

  const MinPasswordLength := 6

  function IsStrongPassword(password: string): (r: Check)
    ensures r.valid <==> |password| >= MinPasswordLength
    ensures r.valid <==> r.message.None?
    ensures !r.valid ==> r.message == Some("Password must be at least 6 characters long")
  {
    if |password| < MinPasswordLength then
      Check(false, Some("Password must be at least 6 characters long"))
    else
      Check(true, None)
  }

  // --------------------------------------------------------- isValidUsername

  predicate AllWordChars(s: string) {
    forall i :: 0 <= i < |s| ==> IsWordChar(s[i])
  }

  /** `/^[a-zA-Z0-9_]+$/.test(s)`, scanned character by character. */
  function MatchesWordChars(s: string): (r: bool)
    ensures r <==> s != [] && AllWordChars(s)
  {
    if s == [] then false
    else if !IsWordChar(s[0]) then false
    else if |s| == 1 then true
    else
      assert forall i :: 1 <= i < |s| ==> s[i] == s[1..][i - 1];
      MatchesWordChars(s[1..])
  }

  function IsValidUsername(username: string): (r: Check)
    ensures r.valid <==> 3 <= |username| <= 20 && AllWordChars(username)
    ensures r.valid <==> r.message.None?
    ensures |username| < 3 ==> r.message == Some("Username must be at least 3 characters long")
    ensures |username| > 20 ==> r.message == Some("Username must be less than 20 characters long")
    ensures 3 <= |username| <= 20 && !AllWordChars(username) ==>
              r.message == Some("Username can only contain letters, numbers, and underscores")
  {
    if |username| < 3 then
      Check(false, Some("Username must be at least 3 characters long"))
    else if |username| > 20 then
      Check(false, Some("Username must be less than 20 characters long"))
    else if !MatchesWordChars(username) then
      Check(false, Some("Username can only contain letters, numbers, and underscores"))
    else
      Check(true, None)
  }

  // ---------------------------------------------------------------- wrappers

  /** `validateRegister`: presence first, then username, email, password. */
  function ValidateRegister(username: Option<string>, email: Option<string>,
                            password: Option<string>): (v: Verdict)
    ensures v.Next? <==>
              Truthy(username) && Truthy(email) && Truthy(password)
              && IsValidUsername(username.value).valid
              && IsValidEmail(email.value)
              && |password.value| >= MinPasswordLength
    ensures v.Reject? ==> v.status == 400
    ensures !(Truthy(username) && Truthy(email) && Truthy(password)) ==>
              v == Reject(400, "All fields are required")
    ensures Truthy(username) && Truthy(email) && Truthy(password)
            && IsValidUsername(username.value).valid && IsValidEmail(email.value)
            && |password.value| < MinPasswordLength ==>
              v == Reject(400, "Password must be at least 6 characters long")
  {
    if !Truthy(username) || !Truthy(email) || !Truthy(password) then
      Reject(400, "All fields are required")
    else if !IsValidUsername(username.value).valid then
      Reject(400, IsValidUsername(username.value).message.value)
    else if !IsValidEmail(email.value) then
      Reject(400, "Invalid email format")
    else if !IsStrongPassword(password.value).valid then
      Reject(400, IsStrongPassword(password.value).message.value)
    else
      Next
  }

  /** The register checks run in order: a bad username is reported even
      when the email and password are bad too, and a bad email before a
      short password. */
  lemma RegisterCheckOrder(username: string, email: string, password: string)
    requires username != "" && email != "" && password != ""
    ensures !IsValidUsername(username).valid ==>
              ValidateRegister(Some(username), Some(email), Some(password))
                == Reject(400, IsValidUsername(username).message.value)
    ensures IsValidUsername(username).valid && !IsValidEmail(email) ==>
              ValidateRegister(Some(username), Some(email), Some(password))
                == Reject(400, "Invalid email format")
  {
  }

  /** `validateLogin`: both present, then the email format. */
  function ValidateLogin(email: Option<string>, password: Option<string>): (v: Verdict)
    ensures v.Next? <==> Truthy(email) && Truthy(password) && IsValidEmail(email.value)
    ensures !(Truthy(email) && Truthy(password)) ==>
              v == Reject(400, "Email and password are required")
    ensures Truthy(email) && Truthy(password) && !IsValidEmail(email.value) ==>
              v == Reject(400, "Invalid email format")
  {
    if !Truthy(email) || !Truthy(password) then
      Reject(400, "Email and password are required")
    else if !IsValidEmail(email.value) then
      Reject(400, "Invalid email format")
    else
      Next
  }

  const MaxRoomNameLength := 50

  /** `validateCreateRoom`: a falsy name, then the 1..50 length range. */
  function ValidateCreateRoom(name: Option<string>): (v: Verdict)
    ensures v.Next? <==> Truthy(name) && |name.value| <= MaxRoomNameLength
    ensures !Truthy(name) ==> v == Reject(400, "Room name is required")
    ensures v == Reject(400, "Room name must be between 1 and 50 characters") <==>
              Truthy(name) && |name.value| > MaxRoomNameLength
  {
    if !Truthy(name) then
      Reject(400, "Room name is required")
    else if |name.value| < 1 || |name.value| > MaxRoomNameLength then
      Reject(400, "Room name must be between 1 and 50 characters")
    else
      Next
  }

  const MaxMessageLength := 1000

  /** `validateCreateMessage`: type and presence, then blank after trim,
      then the untrimmed length. */
  function ValidateCreateMessage(content: Field): (v: Verdict)
    ensures v.Next? <==>
              content.Text? && Trim(content.text) != "" && |content.text| <= MaxMessageLength
    ensures !(content.Text? && content.text != "") ==>
              v == Reject(400, "Message content is required")
    ensures content.Text? && content.text != "" && IsBlank(content.text) ==>
              v == Reject(400, "Message cannot be empty")
    ensures content.Text? && !IsBlank(content.text) && |content.text| > MaxMessageLength ==>
              v == Reject(400, "Message must be less than 1000 characters")
  {
    TrimEmptyIffBlank(if content.Text? then content.text else "");
    if !content.Text? || content.text == "" then
      Reject(400, "Message content is required")
    else if |Trim(content.text)| == 0 then
      Reject(400, "Message cannot be empty")
    else if |content.text| > MaxMessageLength then
      Reject(400, "Message must be less than 1000 characters")
    else
      Next
  }

  /** The length bound is inclusive and measured before trimming: exactly
      1000 characters pass, and 1001 fail even if the excess is blanks. */
  lemma MessageLengthBoundary(body: string)
    requires |body| == MaxMessageLength && !IsBlank(body)
    ensures ValidateCreateMessage(Text(body)).Next?
    ensures ValidateCreateMessage(Text(body + " ")) == Reject(400, "Message must be less than 1000 characters")
  {
    TrimEmptyIffBlank(body);
    assert !IsBlank(body + " ") by {
      var i :| 0 <= i < |body| && !IsWhitespace(body[i]);
      assert (body + " ")[i] == body[i];
    }
  }
}
