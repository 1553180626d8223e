/**
 * The signup page: the user-type toggle, and the submit handler's chain of
 * early-return checks (first name, last name, username, email, password),
 * of which the first that fails decides the error shown; when all pass, the
 * comma-separated skills are parsed and `POST /users/signup` is sent.
 */
module Signup {
  import opened Wrappers
  import opened Text
  import opened Session

  /** The two account kinds; the page starts on SEEKER. */
  datatype UserType = Seeker | Poster

  /** The string sent as `userTypes`. */
  function UserTypeName(t: UserType): (name: string)
    ensures name == "SEEKER" || name == "POSTER"
    ensures name == "SEEKER" <==> t == Seeker
  {
    match t
    case Seeker => "SEEKER"
    case Poster => "POSTER"
  }

  // ---------------------------------------------------------------------
  // The email test /^[^\s@]+@[^\s@]+\.[^\s@]+$/
  // ---------------------------------------------------------------------

  /**
   * The pattern matches s with its '@' at i and its '\.' at j: s is
   * A "@" B "." C with A = s[..i], B = s[i+1..j] and C = s[j+1..] all
   * non-empty, and no character of A, B or C is white space or '@'.
   */
  ghost predicate EmailPatternAt(s: string, i: int, j: int) {
    && 0 < i && i + 1 < j && j + 1 < |s|
    && s[i] == '@' && s[j] == '.'
    && forall k :: 0 <= k < |s| && k != i ==> !IsWhitespace(s[k]) && s[k] != '@'
  }

  ghost predicate MatchesEmailPattern(s: string) {
    exists i, j :: EmailPatternAt(s, i, j)
  }

  predicate NoWhitespace(s: string) {
    forall k :: 0 <= k < |s| ==> !IsWhitespace(s[k])
  }

  /** A '.' with at least one character on each side. */
  predicate HasInnerDot(d: string) {
    exists k :: 0 < k < |d| - 1 && d[k] == '.'
  }

  /**
   * The email test stated plainly: no white space, exactly one '@' (the
   * split on '@' has two pieces), something before it, and after it a '.'
   * with at least one character on each side.
   */
  predicate IsValidEmail(s: string) {
    var pieces := Split(s, '@');
    |pieces| == 2 && NoWhitespace(s) && pieces[0] != "" && HasInnerDot(pieces[1])
  }

  /** The plain email test and the pattern agree on every string. */
  lemma EmailPatternIff(s: string)
    ensures MatchesEmailPattern(s) <==> IsValidEmail(s)
  {
    if IsValidEmail(s) {
      var pieces := Split(s, '@');
      var a, b := pieces[0], pieces[1];
      SplitJoin(s, '@');
      SplitPieces(s, '@');
      assert a in pieces && b in pieces;
      assert s == a + "@" + b;
      var k :| 0 < k < |b| - 1 && b[k] == '.';
      var i, j := |a|, |a| + 1 + k;
      forall m | 0 <= m < |s| && m != i ensures !IsWhitespace(s[m]) && s[m] != '@' {
        if m < i {
          assert s[m] == a[m];
        } else {
          assert s[m] == b[m - i - 1];
        }
      }
      assert EmailPatternAt(s, i, j);
    }
    if MatchesEmailPattern(s) {
      var i, j :| EmailPatternAt(s, i, j);
      var a, b := s[..i], s[i + 1..];
      assert s == a + ['@'] + b;
      assert '@' !in a by {
        forall m | 0 <= m < |a| ensures a[m] != '@' {
          assert a[m] == s[m];
        }
      }
      assert '@' !in b by {
        forall m | 0 <= m < |b| ensures b[m] != '@' {
          assert b[m] == s[m + i + 1];
        }
      }
      SplitConcat(a, b, '@');
      SplitWithoutSeparator(a, '@');
      SplitWithoutSeparator(b, '@');
      assert Split(s, '@') == [a, b];
      assert b[j - i - 1] == s[j];
      assert HasInnerDot(b);
    }
  }

  /** "Exactly one '@'" in the plain test is literal. */
  lemma ValidEmailHasOneAt(s: string)
    requires IsValidEmail(s)
    ensures CountChar(s, '@') == 1
  {
    SplitCount(s, '@');
  }

  // ---------------------------------------------------------------------
  // The validation chain
  // ---------------------------------------------------------------------

  /** What the five checks read. */
  datatype SignupForm = SignupForm(
    firstName: string,
    lastName: string,
    username: string,
    email: string,
    password: string)

  datatype Check = FirstNameCheck | LastNameCheck | UsernameCheck | EmailCheck | PasswordCheck

  /** The order in which the handler runs the checks. */
  const CHECK_ORDER := [FirstNameCheck, LastNameCheck, UsernameCheck, EmailCheck, PasswordCheck]

  const MIN_NAME_LENGTH := 3
  const MIN_PASSWORD_LENGTH := 6

  predicate Passes(c: Check, f: SignupForm) {
    match c
    case FirstNameCheck => |f.firstName| >= MIN_NAME_LENGTH
    case LastNameCheck => |f.lastName| >= MIN_NAME_LENGTH
    case UsernameCheck => |f.username| >= MIN_NAME_LENGTH
    case EmailCheck => IsValidEmail(f.email)
    case PasswordCheck => |f.password| >= MIN_PASSWORD_LENGTH
  }

  /** The toast shown when a check fails. */
  function Message(c: Check): string {
    match c
    case FirstNameCheck => "First name must be at least 3 characters"
    case LastNameCheck => "Last name must be at least 3 characters"
    case UsernameCheck => "Username must be at least 3 characters"
    case EmailCheck => "Please enter a valid email"
    case PasswordCheck => "Password must be at least 6 characters"
  }

  /** The first check of the list that fails, if any. */
  function FirstFailure(checks: seq<Check>, f: SignupForm): Option<Check>
  {
    if checks == [] then None
    else if !Passes(checks[0], f) then Some(checks[0])
    else FirstFailure(checks[1..], f)
  }

  /** The error the handler reports, or None when the form passes. */
  function Validate(f: SignupForm): Option<string>
  {
    match FirstFailure(CHECK_ORDER, f)
    case None => None
    case Some(c) => Some(Message(c))
  }

  /** Nothing fails exactly when every check passes. */
  lemma {:induction false} FirstFailureNone(checks: seq<Check>, f: SignupForm)
    ensures FirstFailure(checks, f) == None <==> forall c :: c in checks ==> Passes(c, f)
  {
    if checks != [] {
      FirstFailureNone(checks[1..], f);
      assert checks == [checks[0]] + checks[1..];
    }
  }

  /** The check reported is the first that fails: it fails, and every check before it passes. */
  lemma {:induction false} FirstFailureIsFirst(checks: seq<Check>, f: SignupForm) returns (k: nat)
    requires FirstFailure(checks, f).Some?
    ensures k < |checks| && checks[k] == FirstFailure(checks, f).value
    ensures !Passes(checks[k], f)
    ensures forall j :: 0 <= j < k ==> Passes(checks[j], f)
  {
    if !Passes(checks[0], f) {
      k := 0;
    } else {
      var k' := FirstFailureIsFirst(checks[1..], f);
      k := k' + 1;
    }
  }

  /** Conversely, when check k fails and all before it pass, check k is the one reported. */
  lemma {:induction false} FirstFailingIsReported(checks: seq<Check>, f: SignupForm, k: nat)
    requires k < |checks| && !Passes(checks[k], f)
    requires forall j :: 0 <= j < k ==> Passes(checks[j], f)
    ensures FirstFailure(checks, f) == Some(checks[k])
  {
    if k > 0 {
      FirstFailingIsReported(checks[1..], f, k - 1);
    }
  }

  /** The form passes exactly when both names and the username have at least 3 characters, the email is valid and the password has at least 6. */
  lemma ValidateAcceptsIff(f: SignupForm)
    ensures Validate(f) == None <==>
              |f.firstName| >= 3 && |f.lastName| >= 3 && |f.username| >= 3 &&
              IsValidEmail(f.email) && |f.password| >= 6
  {
    ValidateChain(f);
  }

  /** The ordered list spelled out as the handler's chain of early returns. */
  lemma ValidateChain(f: SignupForm)
    ensures Validate(f) ==
              if |f.firstName| < 3 then Some(Message(FirstNameCheck))
              else if |f.lastName| < 3 then Some(Message(LastNameCheck))
              else if |f.username| < 3 then Some(Message(UsernameCheck))
              else if !IsValidEmail(f.email) then Some(Message(EmailCheck))
              else if |f.password| < 6 then Some(Message(PasswordCheck))
              else None
  {
    var c0 := CHECK_ORDER;
    var c1 := [LastNameCheck, UsernameCheck, EmailCheck, PasswordCheck];
    var c2 := [UsernameCheck, EmailCheck, PasswordCheck];
    var c3 := [EmailCheck, PasswordCheck];
    var c4 := [PasswordCheck];
    assert c0[1..] == c1 && c1[1..] == c2 && c2[1..] == c3 && c3[1..] == c4 && c4[1..] == [];
    assert FirstFailure(c4, f) == if |f.password| < 6 then Some(PasswordCheck) else None;
    assert FirstFailure(c3, f) == if !IsValidEmail(f.email) then Some(EmailCheck) else FirstFailure(c4, f);
    assert FirstFailure(c2, f) == if |f.username| < 3 then Some(UsernameCheck) else FirstFailure(c3, f);
    assert FirstFailure(c1, f) == if |f.lastName| < 3 then Some(LastNameCheck) else FirstFailure(c2, f);
    assert FirstFailure(c0, f) == if |f.firstName| < 3 then Some(FirstNameCheck) else FirstFailure(c1, f);
    match FirstFailure(c0, f)
    case None =>
    case Some(c) => assert Validate(f) == Some(Message(c));
  }

  /** Boundaries: a name of 3 characters passes its check and one of 2 fails; likewise a password of 6 and one of 5. */
  lemma LengthBoundaries(f: SignupForm)
    ensures |f.firstName| == 2 ==> Validate(f) == Some(Message(FirstNameCheck))
    ensures |f.firstName| == 3 ==> Validate(f) != Some(Message(FirstNameCheck))
    ensures |f.firstName| >= 3 && |f.lastName| >= 3 && |f.username| >= 3 && IsValidEmail(f.email) ==>
              (|f.password| == 6 ==> Validate(f) == None) &&
              (|f.password| == 5 ==> Validate(f) == Some(Message(PasswordCheck)))
  {
    ValidateChain(f);
  }

  // ---------------------------------------------------------------------
  // The page
  // ---------------------------------------------------------------------

  /** The body of `POST /users/signup`. */
  datatype SignupRequest = SignupRequest(
    firstName: string,
    lastName: string,
    username: string,
    email: string,
    password: string,
    userTypes: string,
    skills: seq<string>)

  /** How a submission ends: a check failed (nothing is sent), the request failed, or the account was created and the page goes to the login route. */
  datatype SignupResult =
    | Invalid(message: string)
    | RequestFailed(request: SignupRequest)
    | Registered(request: SignupRequest, route: string)

  class SignupPage {
    var firstName: string
    var lastName: string
    var username: string
    var email: string
    var password: string
    var userType: UserType
    var skills: string
    var loading: bool

    function Form(): SignupForm
      reads this
    {
      SignupForm(firstName, lastName, username, email, password)
    }

    /** The body sent once every check passes. */
    function Request(): (r: SignupRequest)
      reads this
      ensures forall s :: s in r.skills ==> s != "" && IsTrimmed(s)
    {
      ParseCommaListClean(skills);
      SignupRequest(firstName, lastName, username, email, password,
                    UserTypeName(userType), ParseCommaList(skills))
    }

    constructor ()
      ensures Form() == SignupForm("", "", "", "", "") && skills == ""
      ensures userType == Seeker && !loading
    {
      firstName, lastName, username, email, password := "", "", "", "", "";
      userType, skills, loading := Seeker, "", false;
    }

    /** The SEEKER and POSTER buttons. */
    method SelectUserType(t: UserType)
      modifies this`userType
      ensures userType == t
    {
      userType := t;
    }

    /** The `onChange` handlers of the form's inputs. */
    method EditForm(f: SignupForm, newSkills: string)
      modifies this`firstName, this`lastName, this`username, this`email, this`password, this`skills
      ensures Form() == f && skills == newSkills
    {
      firstName, lastName, username, email, password := f.firstName, f.lastName, f.username, f.email, f.password;
      skills := newSkills;
    }

    /**
     * `handleSubmit`. `accepted` is whether the backend accepted the
     * request. Only `loading` changes, and it ends false on every path.
     */
    method Submit(accepted: bool) returns (result: SignupResult)
      modifies this`loading
      ensures !loading
      ensures result.Invalid? <==> Validate(Form()).Some?
      ensures result.Invalid? ==> Validate(Form()) == Some(result.message)
      ensures !result.Invalid? ==> result.request == Request()
      ensures result.Registered? <==> Validate(Form()) == None && accepted
      ensures result.Registered? ==> result.route == LOGIN_PATH
    {
      ValidateChain(Form());
      loading := true;

      if firstName == "" || |firstName| < MIN_NAME_LENGTH {
        result := Invalid(Message(FirstNameCheck));
        loading := false;
        return;
      }

      if lastName == "" || |lastName| < MIN_NAME_LENGTH {
        result := Invalid(Message(LastNameCheck));
        loading := false;
        return;
      }

      if username == "" || |username| < MIN_NAME_LENGTH {
        result := Invalid(Message(UsernameCheck));
        loading := false;
        return;
      }

      if email == "" || !IsValidEmail(email) {
        result := Invalid(Message(EmailCheck));
        loading := false;
        return;
      }

      if password == "" || |password| < MIN_PASSWORD_LENGTH {
        result := Invalid(Message(PasswordCheck));
        loading := false;
        return;
      }

      var skillsArray := ParseCommaList(skills);
      var request := SignupRequest(firstName, lastName, username, email, password,
                                   UserTypeName(userType), skillsArray);
      if accepted {
        result := Registered(request, LOGIN_PATH);
      } else {
        result := RequestFailed(request);
      }
      loading := false;
    }
  }
}
