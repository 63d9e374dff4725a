/**
 * The registration form: the password and email patterns, the letters-only
 * full name, and the order in which `signUp` checks them.
 *
 * Each pattern is stated twice: as what the regular expression accepts
 * (`PasswordPattern`, `EmailPattern`) and as a single pass over the text
 * (`PasswordCheck`, `EmailCheck`); lemmas prove the two agree on every string.
 */
module Register {
  import opened Common

  const EmailErrorMessage := "Please enter a valid email"
  const PasswordErrorMessage :=
    "Password must be at least 8 characters long and \n" +
    "            include at least one uppercase letter, one lowercase letter, \n" +
    "            one number, and one special character (e.g., @, #, $, !)."
  const SignUpErrorMessage := "Error creating account, try again later."

  // ---------------------------------------------------------------------------
  // Password: /^(?=.*[a-z])(?=.*[A-Z])(?=.*\d)(?=.*[@#$%^&*!])[A-Za-z\d@#$%^&*!]{8,}$/
  // ---------------------------------------------------------------------------

  predicate IsPasswordSpecial(c: char) {
    c in {'@', '#', '$', '%', '^', '&', '*', '!'}
  }

  predicate IsPasswordChar(c: char) {
    IsAsciiLetter(c) || IsDigit(c) || IsPasswordSpecial(c)
  }

  /** What the password expression accepts. */
  predicate PasswordPattern(p: string) {
    |p| >= 8 &&
    (forall i :: 0 <= i < |p| ==> IsPasswordChar(p[i])) &&
    (exists i :: 0 <= i < |p| && IsAsciiLower(p[i])) &&
    (exists i :: 0 <= i < |p| && IsAsciiUpper(p[i])) &&
    (exists i :: 0 <= i < |p| && IsDigit(p[i])) &&
    (exists i :: 0 <= i < |p| && IsPasswordSpecial(p[i]))
  }

  /** What one pass over a password finds. */
  datatype PasswordScan = PasswordScan(allAllowed: bool, lower: bool, upper: bool, digit: bool, special: bool)

  function ScanPassword(p: string): PasswordScan
    decreases |p|
  {
    if p == [] then PasswordScan(true, false, false, false, false)
    else
      var rest := ScanPassword(p[1..]);
      var c := p[0];
      PasswordScan(IsPasswordChar(c) && rest.allAllowed, IsAsciiLower(c) || rest.lower,
                   IsAsciiUpper(c) || rest.upper, IsDigit(c) || rest.digit,
                   IsPasswordSpecial(c) || rest.special)
  }

  /** Each flag of the pass says what it is named for, about the whole string. */
  lemma {:induction false} ScanPasswordMeaning(p: string)
    ensures ScanPassword(p).allAllowed <==> forall i :: 0 <= i < |p| ==> IsPasswordChar(p[i])
    ensures ScanPassword(p).lower <==> exists i :: 0 <= i < |p| && IsAsciiLower(p[i])
    ensures ScanPassword(p).upper <==> exists i :: 0 <= i < |p| && IsAsciiUpper(p[i])
    ensures ScanPassword(p).digit <==> exists i :: 0 <= i < |p| && IsDigit(p[i])
    ensures ScanPassword(p).special <==> exists i :: 0 <= i < |p| && IsPasswordSpecial(p[i])
    decreases |p|
  {
    if p != [] {
      var t := p[1..];
      ScanPasswordMeaning(t);
      assert forall i :: 1 <= i < |p| ==> p[i] == t[i - 1];
      assert forall i :: 0 <= i < |t| ==> t[i] == p[i + 1];
    }
  }

  /** `validatePassword`'s test, as one pass over the password. */
  function PasswordCheck(p: string): (ok: bool)
    ensures ok ==> |p| >= 8
  {
    var s := ScanPassword(p);
    |p| >= 8 && s.allAllowed && s.lower && s.upper && s.digit && s.special
  }

  /** The pass accepts exactly the passwords the expression accepts. */
  lemma PasswordCheckCorrect(p: string)
    ensures PasswordCheck(p) <==> PasswordPattern(p)
  {
    ScanPasswordMeaning(p);
  }

  /** One character outside the allowed set rejects the password, whatever else it holds. */
  lemma ForbiddenCharRejects(p: string, i: int)
    requires 0 <= i < |p| && !IsPasswordChar(p[i])
    ensures !PasswordCheck(p)
  {
    PasswordCheckCorrect(p);
  }

  // ---------------------------------------------------------------------------
  // Email: /^[a-zA-Z0-9._%+-]+@[a-zA-Z0-9.-]+\.[a-zA-Z]{2,}$/
  // ---------------------------------------------------------------------------

  predicate IsLocalChar(c: char) {
    IsAsciiLetter(c) || IsDigit(c) || c in {'.', '_', '%', '+', '-'}
  }

  predicate IsDomainChar(c: char) {
    IsAsciiLetter(c) || IsDigit(c) || c == '.' || c == '-'
  }

  /**
   * The expression matched with '@' at `at` and the escaped dot at `dot`: a
   * non-empty local part, a non-empty domain run before the dot, and at least
   * two letters after it, up to the end.
   */
  predicate EmailSplitAt(e: string, at: int, dot: int) {
    0 < at && at + 1 < dot && dot + 2 < |e| &&
    e[at] == '@' && e[dot] == '.' &&
    (forall i :: 0 <= i < at ==> IsLocalChar(e[i])) &&
    (forall i :: at < i < dot ==> IsDomainChar(e[i])) &&
    (forall i :: dot < i < |e| ==> IsAsciiLetter(e[i]))
  }

  /** What the email expression accepts: some way of placing the '@' and the dot matches. */
  predicate EmailPattern(e: string) {
    exists at, dot | 0 <= at < |e| && 0 <= dot < |e| :: EmailSplitAt(e, at, dot)
  }

  /** `s.indexOf(c)`, or -1. */
  function IndexOf(s: string, c: char): (r: int)
    ensures -1 <= r < |s|
    ensures r >= 0 ==> s[r] == c && forall j :: 0 <= j < r ==> s[j] != c
    ensures r == -1 ==> forall j :: 0 <= j < |s| ==> s[j] != c
    decreases |s|
  {
    if s == [] then -1
    else if s[0] == c then 0
    else
      var k := IndexOf(s[1..], c);
      if k == -1 then -1 else k + 1
  }

  /** `s.lastIndexOf(c)`, or -1. */
  function LastIndexOf(s: string, c: char): (r: int)
    ensures -1 <= r < |s|
    ensures r >= 0 ==> s[r] == c && forall j :: r < j < |s| ==> s[j] != c
    ensures r == -1 ==> forall j :: 0 <= j < |s| ==> s[j] != c
    decreases |s|
  {
    if s == [] then -1
    else if s[|s| - 1] == c then |s| - 1
    else LastIndexOf(s[..|s| - 1], c)
  }

  /** `validateEmail`'s test without backtracking: the first '@' and the last '.' must fit. */
  function EmailCheck(e: string): bool {
    var at := IndexOf(e, '@');
    var dot := LastIndexOf(e, '.');
    at >= 0 && EmailSplitAt(e, at, dot)
  }

  /** The one-pass check accepts exactly the addresses the expression accepts. */
  lemma EmailCheckCorrect(e: string)
    ensures EmailCheck(e) <==> EmailPattern(e)
  {
    if EmailPattern(e) {
      var at, dot :| 0 <= at < |e| && 0 <= dot < |e| && EmailSplitAt(e, at, dot);
      // no '@' can come earlier (local characters exclude it), no '.' later (only letters follow)
      assert !IsLocalChar('@') && !IsAsciiLetter('.');
      assert IndexOf(e, '@') == at;
      assert LastIndexOf(e, '.') == dot;
    }
  }

  /** An accepted address holds exactly one '@'. */
  lemma EmailSingleAt(e: string, i: int, j: int)
    requires EmailPattern(e)
    requires 0 <= i < |e| && 0 <= j < |e| && e[i] == '@' && e[j] == '@'
    ensures i == j
  {
    var at, dot :| 0 <= at < |e| && 0 <= dot < |e| && EmailSplitAt(e, at, dot);
    assert !IsLocalChar('@') && !IsDomainChar('@') && !IsAsciiLetter('@');
  }

  /** An address with a two-letter top-level domain is accepted. */
  lemma EmailAccepted()
    ensures EmailPattern("ann@mail.co")
  {
    assert EmailSplitAt("ann@mail.co", 3, 8);
  }

  /** A top-level domain of one letter is rejected. */
  lemma EmailOneLetterDomainRejected()
    ensures !EmailPattern("ann@mail.c")
  {
    var e := "ann@mail.c";
    EmailCheckCorrect(e);
    assert LastIndexOf(e, '.') == 8 by {
      assert e[9] != '.' && e[..9][8] == '.';
    }
  }

  // ---------------------------------------------------------------------------
  // signUp
  // ---------------------------------------------------------------------------

  /** `validateUsername`: every user name is accepted. */
  function ValidateUsername(username: string): (ok: bool)
    ensures ok
  {
    true
  }

  /** Which check `signUp` stops at, in its order: password, then email, then user name. */
  datatype SignUpOutcome = BadPassword | BadEmail | BadUsername | Checked

  function SignUpChecks(password: string, email: string, username: string): (r: SignUpOutcome)
    ensures r == BadPassword <==> !PasswordPattern(password)
    ensures r == BadEmail <==> PasswordPattern(password) && !EmailPattern(email)
    ensures r != BadUsername
    ensures r == Checked <==> PasswordPattern(password) && EmailPattern(email)
  {
    PasswordCheckCorrect(password);
    EmailCheckCorrect(email);
    if !PasswordCheck(password) then BadPassword
    else if !EmailCheck(email) then BadEmail
    else if !ValidateUsername(username) then BadUsername
    else Checked
  }

  /** A bad password is the one reported even when the email is bad too. */
  lemma PasswordReportedFirst(password: string, email: string, username: string)
    requires !PasswordPattern(password)
    ensures SignUpChecks(password, email, username) == BadPassword
  {
  }

  /** The form's state. */
  class RegisterForm {
    var email: string
    var password: string
    var fullname: string
    var username: string
    var message: string
    /** The accounts created so far, as their email addresses. */
    var created: seq<string>

    constructor ()
      ensures email == "" && password == "" && fullname == "" && username == "" && message == ""
      ensures created == []
    {
      email, password, fullname, username, message := "", "", "", "", "";
      created := [];
    }

    /** `validatePassword`: on failure it sets the password message. */
    method ValidatePassword() returns (ok: bool)
      modifies this
      ensures ok <==> PasswordPattern(password)
      ensures !ok ==> message == PasswordErrorMessage
      ensures ok ==> message == old(message)
      ensures email == old(email) && password == old(password) && fullname == old(fullname)
      ensures username == old(username) && created == old(created)
    {
      PasswordCheckCorrect(password);
      if !PasswordCheck(password) {
        message := PasswordErrorMessage;
        return false;
      }
      return true;
    }

    /** `validateEmail`: on failure it sets the email message. */
    method ValidateEmail() returns (ok: bool)
      modifies this
      ensures ok <==> EmailPattern(email)
      ensures !ok ==> message == EmailErrorMessage
      ensures ok ==> message == old(message)
      ensures email == old(email) && password == old(password) && fullname == old(fullname)
      ensures username == old(username) && created == old(created)
    {
      EmailCheckCorrect(email);
      if !EmailCheck(email) {
        message := EmailErrorMessage;
        return false;
      }
      return true;
    }

    /**
     * `signUp`: the checks in order, stopping at the first failure, whose
     * message is shown. When all pass the account is created and the message
     * cleared, unless creating it fails (`creationFails`), which shows the
     * sign-up error instead.
     */
    method SignUp(creationFails: bool)
      modifies this
      ensures var outcome := SignUpChecks(password, email, username);
        (outcome == BadPassword ==> message == PasswordErrorMessage) &&
        (outcome == BadEmail ==> message == EmailErrorMessage) &&
        (outcome == Checked && creationFails ==> message == SignUpErrorMessage) &&
        (outcome == Checked && !creationFails ==> message == "")
      ensures created == if SignUpChecks(password, email, username) == Checked && !creationFails
                         then old(created) + [email] else old(created)
      ensures email == old(email) && password == old(password) && fullname == old(fullname)
      ensures username == old(username)
    {
      var passwordOk := ValidatePassword();
      if passwordOk {
        var emailOk := ValidateEmail();
        if emailOk && ValidateUsername(username) {
          if creationFails {
            message := SignUpErrorMessage;
          } else {
            created := created + [email];
            message := "";
          }
        }
      }
    }

    /** `verifyFullname`: only a string of ASCII letters, the empty one included, replaces the name. */
    method VerifyFullname(value: string)
      modifies this
      ensures AllAsciiLetters(value) ==> fullname == value
      ensures !AllAsciiLetters(value) ==> fullname == old(fullname)
      ensures email == old(email) && password == old(password) && username == old(username)
      ensures message == old(message) && created == old(created)
    {
      if AllAsciiLetters(value) {
        fullname := value;
      }
    }
  }
}
