/** The login page's required-field and email-format checks, and the submit handler that
    stores the session only for a successful reply carrying a token. */
module Login {
  import opened Wrappers
  import Text

  datatype LoginForm = LoginForm(email: string, password: string)

  /** The user record the login endpoint returns next to the token. */
  datatype User = User(username: string, email: string, phone: string, admin: bool)

  /** What the session store receives: the user record extended with the token. */
  datatype Session = Session(user: User, token: string)

  /** What the login endpoint answered (an empty `token` or `error` stands for an absent
      one), or a thrown error. */
  datatype LoginResponse =
    | Replied(success: bool, token: string, user: User, error: string)
    | Threw(message: string)

  const RequiredMessage := "Email and password are required"
  const InvalidEmailMessage := "Please enter a valid email address"
  const HomeRoute := "/"

  /** The characters a regular-expression `\s` matches. */
  predicate IsWhitespace(c: char)
  {
    c == '\t' || c == '\n' || c == '\U{000B}' || c == '\U{000C}' || c == '\r' || c == ' ' ||
    c == '\U{00A0}' || c == '\U{1680}' || ('\U{2000}' <= c <= '\U{200A}') ||
    c == '\U{2028}' || c == '\U{2029}' || c == '\U{202F}' || c == '\U{205F}' ||
    c == '\U{3000}' || c == '\U{FEFF}'
  }

  /** Every character is matched by `[^\s@]`. */
  predicate PlainChars(s: string)
  {
    forall k :: 0 <= k < |s| ==> !IsWhitespace(s[k]) && s[k] != '@'
  }

  /** `/^[^\s@]+@[^\s@]+\.[^\s@]+$/`: a '@' at `i` and a '.' at `j` split the address into
      three non-empty runs of characters that are neither whitespace nor '@'. */
  predicate EmailShape(e: string)
  {
    exists i, j :: 0 < i && i + 1 < j && j + 1 < |e| && e[i] == '@' && e[j] == '.' &&
                   PlainChars(e[..i]) && PlainChars(e[i + 1..])
  }

  function FirstLoginError(f: LoginForm): (r: Option<string>)
    ensures r == None <==> f.email != "" && f.password != "" && EmailShape(f.email)
    ensures f.email == "" || f.password == "" ==> r == Some(RequiredMessage)
  {
    if f.email == "" || f.password == "" then Some(RequiredMessage)
    else if !EmailShape(f.email) then Some(InvalidEmailMessage)
    else None
  }

  /** The reply is accepted, and the session stored, only with both success and a token. */
  predicate SessionGranted(response: LoginResponse)
  {
    response.Replied? && response.success && response.token != ""
  }

  function RequestFailureMessage(response: LoginResponse): (m: string)
    requires !SessionGranted(response)
    ensures m != ""
  {
    match response
    case Replied(_, _, _, error) => Text.OrElse(error, "Login failed")
    case Threw(message) => Text.OrElse(message, "An error occurred")
  }

  function CountChar(s: string, c: char): (n: nat)
    ensures n <= |s|
  {
    if s == [] then 0 else CountChar(s[..|s| - 1], c) + (if s[|s| - 1] == c then 1 else 0)
  }

  lemma {:induction false} CountCharConcat(a: string, b: string, c: char)
    ensures CountChar(a + b, c) == CountChar(a, c) + CountChar(b, c)
  {
    if b == [] {
      assert a + b == a;
    } else {
      CountCharConcat(a, b[..|b| - 1], c);
      assert (a + b)[..|a + b| - 1] == a + b[..|b| - 1];
    }
  }

  lemma {:induction false} PlainHasNoAt(s: string)
    requires PlainChars(s)
    ensures CountChar(s, '@') == 0
  {
    if s != [] {
      PlainHasNoAt(s[..|s| - 1]);
    }
  }

  /** An accepted address has exactly one '@' and no whitespace; the part before the '@' is
      non-empty, and after it a '.' has non-empty text on both sides. */
  lemma {:induction false} AcceptedEmailShape(e: string)
    requires EmailShape(e)
    ensures CountChar(e, '@') == 1
    ensures forall k :: 0 <= k < |e| ==> !IsWhitespace(e[k])
    ensures exists i :: 0 < i < |e| && e[i] == '@' &&
              exists j :: i + 1 < j < |e| - 1 && e[j] == '.'
  {
    var i, j :| 0 < i && i + 1 < j && j + 1 < |e| && e[i] == '@' && e[j] == '.' &&
                PlainChars(e[..i]) && PlainChars(e[i + 1..]);
    assert e == e[..i] + [e[i]] + e[i + 1..];
    CountCharConcat(e[..i] + [e[i]], e[i + 1..], '@');
    CountCharConcat(e[..i], [e[i]], '@');
    PlainHasNoAt(e[..i]);
    PlainHasNoAt(e[i + 1..]);
    NoWhitespaceAround(e, i);
  }

  /** Plain text on both sides of a '@' leaves no whitespace anywhere. */
  lemma NoWhitespaceAround(e: string, i: int)
    requires 0 <= i < |e| && e[i] == '@'
    requires PlainChars(e[..i]) && PlainChars(e[i + 1..])
    ensures forall k :: 0 <= k < |e| ==> !IsWhitespace(e[k])
  {
  }

  lemma Examples()
    ensures EmailShape("user@mail.com")
    ensures !EmailShape("user@mail")
    ensures !EmailShape("@mail.com")
    ensures !EmailShape("user@.com")
    ensures !EmailShape("a b@mail.com")
    ensures EmailShape("user@mail..com") && EmailShape("user@.mail.com")
  {
    var ok := "user@mail.com";
    assert ok[4] == '@' && ok[9] == '.' && PlainChars(ok[..4]) && PlainChars(ok[5..]);
    var noDot := "user@mail";
    forall i, j | 0 < i && i + 1 < j && j + 1 < |noDot| && noDot[i] == '@'
      ensures noDot[j] != '.'
    {
    }
    var noLocal := "@mail.com";
    forall i | 0 < i < |noLocal| ensures noLocal[i] != '@' { }
    var emptyDomain := "user@.com";
    forall i, j | 0 < i && i + 1 < j && j + 1 < |emptyDomain| && emptyDomain[i] == '@'
      ensures emptyDomain[j] != '.'
    {
    }
    var spaced := "a b@mail.com";
    forall i | 0 < i < |spaced| && spaced[i] == '@' ensures !PlainChars(spaced[..i]) {
      assert spaced[..i][1] == ' ';
    }
    var doubleDot := "user@mail..com";
    assert doubleDot[4] == '@' && doubleDot[10] == '.' && PlainChars(doubleDot[..4]) && PlainChars(doubleDot[5..]);
    var leadingDot := "user@.mail.com";
    assert leadingDot[4] == '@' && leadingDot[10] == '.' && PlainChars(leadingDot[..4]) && PlainChars(leadingDot[5..]);
  }

  /** The state of the login page that the submit handler writes, with the session store. */
  class LoginPage {
    var error: Option<string>
    var loading: bool
    var storedSession: Option<Session>
    var navigatedTo: Option<string>

    constructor ()
      ensures error == None && !loading && storedSession == None && navigatedTo == None
    {
      error, loading, storedSession, navigatedTo := None, false, None, None;
    }

    /** `handleSubmit`: a failed check sets its message, resets `loading` and sends nothing;
        a reply with success and a token stores the session and goes home; any other
        answer sets the failure message and stores nothing. `loading` always ends false. */
    method HandleSubmit(form: LoginForm, response: LoginResponse) returns (requestSent: bool)
      modifies this
      ensures requestSent <==> FirstLoginError(form) == None
      ensures !loading
      ensures !requestSent ==>
                error == FirstLoginError(form) &&
                storedSession == old(storedSession) && navigatedTo == old(navigatedTo)
      ensures requestSent && SessionGranted(response) ==>
                error == None && navigatedTo == Some(HomeRoute) &&
                storedSession == Some(Session(response.user, response.token))
      ensures requestSent && !SessionGranted(response) ==>
                error == Some(RequestFailureMessage(response)) &&
                storedSession == old(storedSession) && navigatedTo == old(navigatedTo)
    {
      error := None;
      loading := true;
      var failure := FirstLoginError(form);
      if failure.Some? {
        error := failure;
        loading := false;
        return false;
      }
      requestSent := true;
      if SessionGranted(response) {
        storedSession := Some(Session(response.user, response.token));
        navigatedTo := Some(HomeRoute);
      } else {
        error := Some(RequestFailureMessage(response));
      }
      loading := false;
    }
  }
}
