/** The registration page's client-side validation chain and submit handler. */
module Register {
  import opened Wrappers
  import Text

  datatype RegisterForm = RegisterForm(username: string, email: string, password: string, phone: string)

  /** What the register endpoint answered: a reply (with its `error` text and the first
      validation message, empty when absent) or a thrown error. */
  datatype RegisterResponse =
    | Replied(success: bool, error: string, errorMsgs: seq<string>)
    | Threw(message: string)

  const UsernameLengthMessage := "Username must be between 3 and 50 characters"
  const UsernameCharsetMessage := "Username can only contain letters, numbers, and underscores"
  const PasswordLengthMessage := "Password must be at least 8 characters"
  const PasswordClassesMessage := "Password must contain at least one uppercase letter, one lowercase letter, and one number"
  const PhoneMessage := "Phone number must be 10-15 digits"
  const RegisteredRoute := "/login?registered=true"

  predicate IsAsciiLower(c: char) { 'a' <= c <= 'z' }
  predicate IsAsciiUpper(c: char) { 'A' <= c <= 'Z' }

  /** The characters `[a-zA-Z0-9_]` admits. */
  predicate IsUsernameChar(c: char)
  {
    IsAsciiLower(c) || IsAsciiUpper(c) || Text.IsDigit(c) || c == '_'
  }

  /** The characters a regular-expression `.` does not match. */
  predicate IsLineTerminator(c: char)
  {
    c == '\n' || c == '\r' || c == '\U{2028}' || c == '\U{2029}'
  }

  datatype CharClass = Lower | Upper | Digit

  predicate InClass(c: char, cls: CharClass)
  {
    match cls
    case Lower => IsAsciiLower(c)
    case Upper => IsAsciiUpper(c)
    case Digit => Text.IsDigit(c)
  }

  predicate NoLineTerminator(s: string)
  {
    forall k :: 0 <= k < |s| ==> !IsLineTerminator(s[k])
  }

  /** The lookahead `(?=.*[class])` at the start of the string: a character of the class
      is reached before any line terminator. */
  predicate LookaheadFinds(p: string, cls: CharClass)
  {
    exists i :: 0 <= i < |p| && InClass(p[i], cls) && NoLineTerminator(p[..i])
  }

  predicate UsernameLengthOk(u: string) { 3 <= |u| <= 50 }

  /** `/^[a-zA-Z0-9_]+$/` */
  predicate UsernameCharsetOk(u: string)
  {
    |u| > 0 && forall k :: 0 <= k < |u| ==> IsUsernameChar(u[k])
  }

  predicate PasswordLengthOk(p: string) { |p| >= 8 }

  /** `/^(?=.*[a-z])(?=.*[A-Z])(?=.*\d)/` */
  predicate PasswordClassesOk(p: string)
  {
    LookaheadFinds(p, Lower) && LookaheadFinds(p, Upper) && LookaheadFinds(p, Digit)
  }

  /** An empty phone is skipped; otherwise `/^[0-9]{10,15}$/`. */
  predicate PhoneOk(phone: string)
  {
    phone == "" || (10 <= |phone| <= 15 && Text.AllDigits(phone))
  }

  /** The checks in the order the handler runs them; the message of the first that fails. */
  function FirstRegistrationError(f: RegisterForm): (r: Option<string>)
    ensures r == None <==>
      UsernameLengthOk(f.username) && UsernameCharsetOk(f.username) &&
      PasswordLengthOk(f.password) && PasswordClassesOk(f.password) && PhoneOk(f.phone)
  {
    if !UsernameLengthOk(f.username) then Some(UsernameLengthMessage)
    else if !UsernameCharsetOk(f.username) then Some(UsernameCharsetMessage)
    else if !PasswordLengthOk(f.password) then Some(PasswordLengthMessage)
    else if !PasswordClassesOk(f.password) then Some(PasswordClassesMessage)
    else if !PhoneOk(f.phone) then Some(PhoneMessage)
    else None
  }

  /** The message shown when the request fails or throws. */
  function RequestFailureMessage(response: RegisterResponse): (m: string)
    requires !(response.Replied? && response.success)
    ensures m != ""
  {
    match response
    case Replied(_, error, msgs) =>
      Text.OrElse(error, Text.OrElse(if |msgs| > 0 then msgs[0] else "", "Registration failed"))
    case Threw(message) => Text.OrElse(message, "An error occurred")
  }

  /** Each message is reported exactly when every earlier check passed and its own failed. */
  lemma OnlyFirstFailureReported(f: RegisterForm)
    ensures FirstRegistrationError(f) == Some(UsernameLengthMessage) <==> !UsernameLengthOk(f.username)
    ensures FirstRegistrationError(f) == Some(UsernameCharsetMessage) <==>
              UsernameLengthOk(f.username) && !UsernameCharsetOk(f.username)
    ensures FirstRegistrationError(f) == Some(PasswordLengthMessage) <==>
              UsernameLengthOk(f.username) && UsernameCharsetOk(f.username) && !PasswordLengthOk(f.password)
    ensures FirstRegistrationError(f) == Some(PasswordClassesMessage) <==>
              UsernameLengthOk(f.username) && UsernameCharsetOk(f.username) &&
              PasswordLengthOk(f.password) && !PasswordClassesOk(f.password)
    ensures FirstRegistrationError(f) == Some(PhoneMessage) <==>
              UsernameLengthOk(f.username) && UsernameCharsetOk(f.username) &&
              PasswordLengthOk(f.password) && PasswordClassesOk(f.password) && !PhoneOk(f.phone)
  {
  }

  /** Accepted usernames have 3 to 50 characters, all ASCII letters, digits or '_'. */
  lemma AcceptedUsername(f: RegisterForm, k: int)
    requires FirstRegistrationError(f) == None
    requires 0 <= k < |f.username|
    ensures 3 <= |f.username| <= 50 && IsUsernameChar(f.username[k])
  {
  }

  /** For a password without line breaks, the lookahead test says: somewhere there is a
      lowercase letter, somewhere an uppercase letter and somewhere a digit. */
  lemma {:induction false} PasswordClassesAnywhere(p: string)
    requires NoLineTerminator(p)
    ensures PasswordClassesOk(p) <==>
      (exists i :: 0 <= i < |p| && IsAsciiLower(p[i])) &&
      (exists i :: 0 <= i < |p| && IsAsciiUpper(p[i])) &&
      (exists i :: 0 <= i < |p| && Text.IsDigit(p[i]))
  {
    LookaheadAnywhere(p, Lower);
    LookaheadAnywhere(p, Upper);
    LookaheadAnywhere(p, Digit);
  }

  lemma LookaheadAnywhere(p: string, cls: CharClass)
    requires NoLineTerminator(p)
    ensures LookaheadFinds(p, cls) <==> exists i :: 0 <= i < |p| && InClass(p[i], cls)
  {
    if i :| 0 <= i < |p| && InClass(p[i], cls) {
      assert NoLineTerminator(p[..i]);
    }
  }

  /** A line terminator in front of every character of a class defeats that class's
      lookahead, whatever follows it. */
  lemma LineBreakHidesClass(p: string, n: int, cls: CharClass)
    requires 0 <= n < |p| && IsLineTerminator(p[n])
    requires forall k :: 0 <= k < n ==> !InClass(p[k], cls)
    ensures !LookaheadFinds(p, cls)
  {
    forall i | 0 <= i < |p| && InClass(p[i], cls)
      ensures !NoLineTerminator(p[..i])
    {
      assert i > n;
      assert p[..i][n] == p[n];
    }
  }

  /** A password with a lowercase letter, an uppercase letter and a digit, rejected because
      a line break comes before all of its lowercase letters. */
  lemma LineBreakHidesLetter()
    ensures !PasswordClassesOk("\nAbcdefg1")
  {
    LineBreakHidesClass("\nAbcdefg1", 0, Lower);
  }

  /** The state of the registration page that the submit handler writes. */
  class RegisterPage {
    var error: Option<string>
    var loading: bool
    var navigatedTo: Option<string>

    constructor ()
      ensures error == None && !loading && navigatedTo == None
    {
      error, loading, navigatedTo := None, false, None;
    }

    /** `handleSubmit`: a failed check sets its message, resets `loading` and sends
        nothing; otherwise the request is sent and its answer either navigates to the
        login page or sets the failure message. `loading` always ends false. */
    method HandleSubmit(form: RegisterForm, response: RegisterResponse) returns (requestSent: bool)
      modifies this
      ensures requestSent <==> FirstRegistrationError(form) == None
      ensures !loading
      ensures !requestSent ==> error == FirstRegistrationError(form) && navigatedTo == old(navigatedTo)
      ensures requestSent && response.Replied? && response.success ==>
                error == None && navigatedTo == Some(RegisteredRoute)
      ensures requestSent && !(response.Replied? && response.success) ==>
                error == Some(RequestFailureMessage(response)) && navigatedTo == old(navigatedTo)
    {
      error := None;
      loading := true;
      var failure := FirstRegistrationError(form);
      if failure.Some? {
        error := failure;
        loading := false;
        return false;
      }
      requestSent := true;
      if response.Replied? && response.success {
        navigatedTo := Some(RegisteredRoute);
      } else {
        error := Some(RequestFailureMessage(response));
      }
      loading := false;
    }
  }
}
