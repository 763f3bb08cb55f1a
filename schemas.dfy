/**
 * The member form rules: the password, nickname and email field rules, the
 * login form, the signup and password-reset forms with their "passwords
 * match" check, and the password strength score shown while typing. The
 * forgot-password form is the e-mail rule alone.
 *
 * zod reports every failed check of a field, in the order the checks are
 * declared; a rule accepts when it reports nothing. Lengths are counted in
 * characters. zod's e-mail pattern is not modelled: whether the address
 * matches it is a parameter.
 */
module Schemas {
  import opened JsValues

  const EmailRequiredMessage := "이메일을 입력해주세요"
  const EmailFormatMessage := "올바른 이메일 형식이 아닙니다"
  const PasswordRequiredMessage := "비밀번호를 입력해주세요"
  const PasswordLengthMessage := "비밀번호는 8자 이상이어야 합니다"
  const PasswordPatternMessage := "비밀번호는 영문과 숫자를 포함해야 합니다"
  const NicknameRequiredMessage := "닉네임을 입력해주세요"
  const NicknameShortMessage := "닉네임은 2자 이상이어야 합니다"
  const NicknameLongMessage := "닉네임은 20자 이하여야 합니다"
  const ConfirmRequiredMessage := "비밀번호 확인을 입력해주세요"
  const MismatchMessage := "비밀번호가 일치하지 않습니다"

  const MinPasswordLength := 8
  const MinNicknameLength := 2
  const MaxNicknameLength := 20

  datatype Field = Email | Password | PasswordConfirm | Nickname

  /** One zod issue: the field it is reported on and its message. */
  datatype Issue = Issue(path: Field, message: string)

  /** Characters `.` does not match in a JavaScript regular expression. */
  predicate IsLineTerminator(c: char)
  {
    c == '\n' || c == '\r' || c == '\U{2028}' || c == '\U{2029}'
  }

  /** The text before the first line terminator: what `^.*` can reach. */
  function FirstLine(s: string): (line: string)
    ensures |line| <= |s| && line == s[..|line|]
    ensures forall i :: 0 <= i < |line| ==> !IsLineTerminator(line[i])
    ensures |line| < |s| ==> IsLineTerminator(s[|line|])
  {
    if s == [] || IsLineTerminator(s[0]) then [] else [s[0]] + FirstLine(s[1..])
  }

  predicate HasLetter(s: string) { exists i :: 0 <= i < |s| && (IsAsciiLower(s[i]) || IsAsciiUpper(s[i])) }
  predicate HasLower(s: string) { exists i :: 0 <= i < |s| && IsAsciiLower(s[i]) }
  predicate HasUpper(s: string) { exists i :: 0 <= i < |s| && IsAsciiUpper(s[i]) }
  predicate HasDigit(s: string) { exists i :: 0 <= i < |s| && IsAsciiDigit(s[i]) }
  predicate HasOther(s: string)
  {
    exists i :: 0 <= i < |s| && !(IsAsciiLower(s[i]) || IsAsciiUpper(s[i]) || IsAsciiDigit(s[i]))
  }

  /** `/^(?=.*[a-zA-Z])(?=.*[0-9])/.test(s)`: a letter and a digit before the first line break. */
  predicate LetterAndDigitPattern(s: string)
  {
    HasLetter(FirstLine(s)) && HasDigit(FirstLine(s))
  }

  /** `passwordSchema`: required, at least 8 characters, a letter and a digit. */
  function PasswordIssues(password: string): (issues: seq<Issue>)
    ensures issues == [] <==> |password| >= MinPasswordLength && LetterAndDigitPattern(password)
    ensures password == "" ==> Issue(Password, PasswordRequiredMessage) in issues
    ensures forall k :: 0 <= k < |issues| ==> issues[k].path == Password
  {
    (if |password| < 1 then [Issue(Password, PasswordRequiredMessage)] else [])
    + (if |password| < MinPasswordLength then [Issue(Password, PasswordLengthMessage)] else [])
    + (if !LetterAndDigitPattern(password) then [Issue(Password, PasswordPatternMessage)] else [])
  }

  /** `nicknameSchema`: required, 2 to 20 characters. */
  function NicknameIssues(nickname: string): (issues: seq<Issue>)
    ensures issues == [] <==> MinNicknameLength <= |nickname| <= MaxNicknameLength
    ensures forall k :: 0 <= k < |issues| ==> issues[k].path == Nickname
  {
    (if |nickname| < 1 then [Issue(Nickname, NicknameRequiredMessage)] else [])
    + (if |nickname| < MinNicknameLength then [Issue(Nickname, NicknameShortMessage)] else [])
    + (if |nickname| > MaxNicknameLength then [Issue(Nickname, NicknameLongMessage)] else [])
  }

  /** `emailSchema`, with zod's verdict on the address pattern given. */
  function EmailIssues(email: string, matchesEmailPattern: bool): (issues: seq<Issue>)
    ensures issues == [] <==> |email| >= 1 && matchesEmailPattern
    ensures forall k :: 0 <= k < |issues| ==> issues[k].path == Email
  {
    (if |email| < 1 then [Issue(Email, EmailRequiredMessage)] else [])
    + (if !matchesEmailPattern then [Issue(Email, EmailFormatMessage)] else [])
  }

  /** The required confirmation field. */
  function ConfirmIssues(passwordConfirm: string): (issues: seq<Issue>)
    ensures issues == [] <==> |passwordConfirm| >= 1
  {
    if |passwordConfirm| < 1 then [Issue(PasswordConfirm, ConfirmRequiredMessage)] else []
  }

  /** The `refine` of both password forms: a mismatch is reported on `passwordConfirm`. */
  function MatchIssues(password: string, passwordConfirm: string): (issues: seq<Issue>)
    ensures issues == [] <==> password == passwordConfirm
    ensures issues != [] ==> issues == [Issue(PasswordConfirm, MismatchMessage)]
  {
    if password != passwordConfirm then [Issue(PasswordConfirm, MismatchMessage)] else []
  }

  datatype LoginForm = LoginForm(email: string, password: string)

  /** `loginFormSchema`: the e-mail rule, and a password that is only required. */
  function LoginIssues(form: LoginForm, matchesEmailPattern: bool): (issues: seq<Issue>)
    ensures issues == [] <==> |form.email| >= 1 && matchesEmailPattern && |form.password| >= 1
    ensures form.password == "" ==> Issue(Password, PasswordRequiredMessage) in issues
  {
    var issues := EmailIssues(form.email, matchesEmailPattern)
      + (if |form.password| < 1 then [Issue(Password, PasswordRequiredMessage)] else []);
    assert form.password == "" ==> issues[|issues| - 1] == Issue(Password, PasswordRequiredMessage);
    issues
  }

  datatype SignupForm = SignupForm(email: string, password: string, passwordConfirm: string, nickname: string)

  /** `signupFormSchema`: the four fields in declaration order, then the refinement. */
  function SignupIssues(form: SignupForm, matchesEmailPattern: bool): (issues: seq<Issue>)
    ensures issues == [] <==>
              (|form.email| >= 1 && matchesEmailPattern && |form.password| >= MinPasswordLength
               && LetterAndDigitPattern(form.password) && form.password == form.passwordConfirm
               && MinNicknameLength <= |form.nickname| <= MaxNicknameLength)
    ensures form.password != form.passwordConfirm ==> Issue(PasswordConfirm, MismatchMessage) in issues
  {
    var issues := EmailIssues(form.email, matchesEmailPattern) + PasswordIssues(form.password)
      + ConfirmIssues(form.passwordConfirm) + NicknameIssues(form.nickname)
      + MatchIssues(form.password, form.passwordConfirm);
    assert MatchIssues(form.password, form.passwordConfirm) == issues[|issues| - |MatchIssues(form.password, form.passwordConfirm)|..];
    issues
  }

  datatype ResetPasswordForm = ResetPasswordForm(password: string, passwordConfirm: string)

  /** `resetPasswordFormSchema`: the password, its confirmation, then the refinement. */
  function ResetPasswordIssues(form: ResetPasswordForm): (issues: seq<Issue>)
    ensures issues == [] <==>
              (|form.password| >= MinPasswordLength && LetterAndDigitPattern(form.password)
               && form.password == form.passwordConfirm)
    ensures form.password != form.passwordConfirm ==> Issue(PasswordConfirm, MismatchMessage) in issues
  {
    var issues := PasswordIssues(form.password) + ConfirmIssues(form.passwordConfirm)
      + MatchIssues(form.password, form.passwordConfirm);
    assert MatchIssues(form.password, form.passwordConfirm) == issues[|issues| - |MatchIssues(form.password, form.passwordConfirm)|..];
    issues
  }

  /** An account the signup form accepts can sign in through the login form with the same e-mail and password. */
  lemma SignupCredentialsPassLogin(form: SignupForm, matchesEmailPattern: bool)
    requires SignupIssues(form, matchesEmailPattern) == []
    ensures LoginIssues(LoginForm(form.email, form.password), matchesEmailPattern) == []
  {
  }

  /** The login form asks less of the password than the signup rule: a short password passes login but not signup. */
  lemma LoginIsLaxerThanSignup(email: string)
    requires |email| >= 1
    ensures LoginIssues(LoginForm(email, "a1"), true) == []
    ensures PasswordIssues("a1") != []
  {
  }

  // ---------------------------------------------------------------------
  // Password strength

  const StrengthLabels: seq<string> := ["", "약함", "보통", "강함", "매우 강함"]

  /** One point each for length 8, mixed case, a digit, and a character that is not an ASCII letter or digit. */
  function StrengthScore(password: string): (score: nat)
    ensures score <= 4
  {
    (if |password| >= MinPasswordLength then 1 else 0)
    + (if HasLower(password) && HasUpper(password) then 1 else 0)
    + (if HasDigit(password) then 1 else 0)
    + (if HasOther(password) then 1 else 0)
  }

  /** `calculatePasswordStrength(password)`: the score counted up test by test, and its label. */
  method CalculatePasswordStrength(password: string) returns (score: nat, strengthLabel: string)
    ensures score == StrengthScore(password) && score <= 4
    ensures strengthLabel == StrengthLabels[score]
  {
    score := 0;
    if |password| >= MinPasswordLength {
      score := score + 1;
    }
    if HasLower(password) && HasUpper(password) {
      score := score + 1;
    }
    if HasDigit(password) {
      score := score + 1;
    }
    if HasOther(password) {
      score := score + 1;
    }
    strengthLabel := if score < |StrengthLabels| then StrengthLabels[score] else "";
  }

  /** Typing more never weakens a password: every test only looks for length or for a kind of character. */
  lemma ScoreMonotone(password: string, more: string)
    ensures StrengthScore(password) <= StrengthScore(password + more)
  {
    var s := password + more;
    assert forall i :: 0 <= i < |password| ==> s[i] == password[i];
    if HasLower(password) {
      var i :| 0 <= i < |password| && IsAsciiLower(password[i]);
      assert IsAsciiLower(s[i]);
    }
    if HasUpper(password) {
      var i :| 0 <= i < |password| && IsAsciiUpper(password[i]);
      assert IsAsciiUpper(s[i]);
    }
    if HasDigit(password) {
      var i :| 0 <= i < |password| && IsAsciiDigit(password[i]);
      assert IsAsciiDigit(s[i]);
    }
    if HasOther(password) {
      var i :| 0 <= i < |password| && !(IsAsciiLower(password[i]) || IsAsciiUpper(password[i]) || IsAsciiDigit(password[i]));
      assert !(IsAsciiLower(s[i]) || IsAsciiUpper(s[i]) || IsAsciiDigit(s[i]));
    }
  }

  /** A password the rule accepts scores at least 2: it is long enough and has a digit. */
  lemma AcceptedPasswordScore(password: string)
    requires PasswordIssues(password) == []
    ensures StrengthScore(password) >= 2
  {
    var line := FirstLine(password);
    var i :| 0 <= i < |line| && IsAsciiDigit(line[i]);
    assert password[i] == line[i];
  }

  /** The first line ends at the first line terminator. */
  lemma {:induction false} FirstLineEndsAt(s: string, k: nat)
    requires k < |s| && IsLineTerminator(s[k])
    requires forall i :: 0 <= i < k ==> !IsLineTerminator(s[i])
    ensures FirstLine(s) == s[..k]
    decreases k
  {
    if k > 0 {
      FirstLineEndsAt(s[1..], k - 1);
      assert s[..k] == [s[0]] + s[1..][..k - 1];
    }
  }

  /** The pattern looks only at the first line: a digit after a line break does not count. */
  lemma PatternStopsAtLineBreak()
    ensures HasLetter("abcdefg\n1") && HasDigit("abcdefg\n1")
    ensures PasswordIssues("abcdefg\n1") == [Issue(Password, PasswordPatternMessage)]
  {
    var s := "abcdefg\n1";
    FirstLineEndsAt(s, 7);
    assert !HasDigit(s[..7]) by {
      forall i | 0 <= i < 7 ensures !IsAsciiDigit(s[..7][i]) {}
    }
    assert IsAsciiDigit(s[8]) && IsAsciiLower(s[0]);
  }
}
