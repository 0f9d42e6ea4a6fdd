/** BasicValidator (web-server/internal/validator/validator.go): usernames (and group names)
    and passwords are checked against a fixed list of rules, each a regular expression with
    the message reported when it does not match. */
module Validator {
  import opened Errors

  predicate IsLetter(c: char) { 'a' <= c <= 'z' || 'A' <= c <= 'Z' }
  predicate IsDigit(c: char) { '0' <= c <= '9' }

  /** The character class `[-_0-9a-zA-Z]`. */
  predicate IsNameChar(c: char) { c == '-' || c == '_' || IsDigit(c) || IsLetter(c) }

  /** The six regular expressions of the two rule lists. */
  datatype Pattern =
    | LineOfLength(min: nat, max: Option<nat>)  // ^.{min,max}$ or ^.{min,}$
    | StartsWithLetter                          // ^[a-zA-Z].*
    | OnlyNameChars                             // ^[-_0-9a-zA-Z]+$
    | ContainsDigit                             // .*[0-9].*
    | ContainsNonNameChar                       // .*[^-_0-9a-zA-Z].*

  /** Whether `regexp.Match` finds the pattern in `s`. In Go's syntax `.` matches any
      character but a newline, `^` and `$` anchor at the ends of the whole text, a negated
      class matches a newline, and an unanchored pattern may match anywhere. */
  predicate Matches(p: Pattern, s: string)
  {
    match p
    case LineOfLength(min, max) =>
      && min <= |s| && (max.None? || |s| <= max.value)
      && forall i :: 0 <= i < |s| ==> s[i] != '\n'
    case StartsWithLetter => |s| > 0 && IsLetter(s[0])
    case OnlyNameChars => |s| > 0 && forall i :: 0 <= i < |s| ==> IsNameChar(s[i])
    case ContainsDigit => exists i :: 0 <= i < |s| && IsDigit(s[i])
    case ContainsNonNameChar => exists i :: 0 <= i < |s| && !IsNameChar(s[i])
  }

  datatype Rule = Rule(regex: Pattern, errorMsg: string)

  const UsernameRules: seq<Rule> := [
    Rule(LineOfLength(8, Some(20)), "Username should be between 8 and 20 symbols"),
    Rule(StartsWithLetter, "Username should always begin only with a letter"),
    Rule(OnlyNameChars, "Username cannot contain special symbols except \"-\" and \"_\"")
  ]

  const PasswordRules: seq<Rule> := [
    Rule(LineOfLength(10, None), "Password should be greater than 9 symbols"),
    Rule(ContainsDigit, "Password should contain atleast one number"),
    Rule(ContainsNonNameChar, "Password should contain atleast one special char")
  ]

  /** The outcome of checking the rules in list order: the first rule that does not match
      decides the error. */
  function FirstFailure(rules: seq<Rule>, target: string): (r: Outcome)
    ensures r.Pass? <==> forall i :: 0 <= i < |rules| ==> Matches(rules[i].regex, target)
    ensures r.Fail? ==> exists i :: (0 <= i < |rules| && !Matches(rules[i].regex, target)
      && r.error == ClientError(rules[i].errorMsg)
      && forall j :: 0 <= j < i ==> Matches(rules[j].regex, target))
  {
    if rules == [] then Pass
    else if !Matches(rules[0].regex, target) then Fail(ClientError(rules[0].errorMsg))
    else
      var rest := FirstFailure(rules[1..], target);
      assert rest.Fail? ==> exists i :: (1 <= i < |rules| && !Matches(rules[i].regex, target)
        && rest.error == ClientError(rules[i].errorMsg)
        && forall j :: 0 <= j < i ==> Matches(rules[j].regex, target)) by {
        if rest.Fail? {
          var k :| 0 <= k < |rules[1..]| && !Matches(rules[1..][k].regex, target)
            && rest.error == ClientError(rules[1..][k].errorMsg)
            && forall j :: 0 <= j < k ==> Matches(rules[1..][j].regex, target);
          assert forall j :: 1 <= j < k + 1 ==> rules[j] == rules[1..][j - 1];
        }
      }
      rest
  }

  /** checkRules: the loop over the rule list, stopping at the first rule that fails. */
  method CheckRules(rules: seq<Rule>, target: string) returns (r: Outcome)
    ensures r == FirstFailure(rules, target)
  {
    for k := 0 to |rules|
      invariant forall j :: 0 <= j < k ==> Matches(rules[j].regex, target)
    {
      if !Matches(rules[k].regex, target) {
        FirstFailureAt(rules, target, k);
        return Fail(ClientError(rules[k].errorMsg));
      }
    }
    return Pass;
  }

  /** When every rule before `k` matches and rule `k` does not, rule `k` decides. */
  lemma {:induction false} FirstFailureAt(rules: seq<Rule>, target: string, k: nat)
    requires k < |rules| && !Matches(rules[k].regex, target)
    requires forall j :: 0 <= j < k ==> Matches(rules[j].regex, target)
    ensures FirstFailure(rules, target) == Fail(ClientError(rules[k].errorMsg))
  {
    if k > 0 {
      FirstFailureAt(rules[1..], target, k - 1);
    }
  }

  function ValidateUsername(username: string): (r: Outcome)
    ensures r.Pass? <==> forall i :: 0 <= i < |UsernameRules| ==> Matches(UsernameRules[i].regex, username)
  {
    FirstFailure(UsernameRules, username)
  }

  function ValidatePassword(password: string): (r: Outcome)
    ensures r.Pass? <==> forall i :: 0 <= i < |PasswordRules| ==> Matches(PasswordRules[i].regex, password)
  {
    FirstFailure(PasswordRules, password)
  }

  /** A valid username: 8 to 20 characters, a letter first, and only `[-_0-9a-zA-Z]`. */
  lemma ValidUsernameIff(s: string)
    ensures ValidateUsername(s).Pass? <==>
      && 8 <= |s| <= 20 && IsLetter(s[0])
      && forall i :: 0 <= i < |s| ==> IsNameChar(s[i])
  {
    assert Matches(UsernameRules[0].regex, s) <==> 8 <= |s| <= 20 && forall i :: 0 <= i < |s| ==> s[i] != '\n';
    assert Matches(UsernameRules[1].regex, s) <==> |s| > 0 && IsLetter(s[0]);
    assert Matches(UsernameRules[2].regex, s) <==> |s| > 0 && forall i :: 0 <= i < |s| ==> IsNameChar(s[i]);
  }

  /** A valid password: at least 10 characters, none a newline, with a digit and with a
      character outside `[-_0-9a-zA-Z]`. */
  lemma ValidPasswordIff(s: string)
    ensures ValidatePassword(s).Pass? <==>
      && 10 <= |s| && (forall i :: 0 <= i < |s| ==> s[i] != '\n')
      && (exists i :: 0 <= i < |s| && IsDigit(s[i]))
      && (exists i :: 0 <= i < |s| && !IsNameChar(s[i]))
  {
    assert Matches(PasswordRules[0].regex, s) <==> 10 <= |s| && forall i :: 0 <= i < |s| ==> s[i] != '\n';
    assert Matches(PasswordRules[1].regex, s) <==> exists i :: 0 <= i < |s| && IsDigit(s[i]);
    assert Matches(PasswordRules[2].regex, s) <==> exists i :: 0 <= i < |s| && !IsNameChar(s[i]);
  }

  /** A valid name holds neither `/` nor `.`, so the directory joined from it is a direct
      child of the groups directory. */
  lemma ValidNameIsPlainDirName(s: string)
    requires ValidateUsername(s).Pass?
    ensures s != "" && forall i :: 0 <= i < |s| ==> s[i] != '/' && s[i] != '.'
  {
    ValidUsernameIff(s);
  }

  // The cases of validator_test.go, one lemma per case.

  lemma UsernameTooShort()
    ensures ValidateUsername("example") == Fail(ClientError(UsernameRules[0].errorMsg))
  {
    FirstFailureAt(UsernameRules, "example", 0);
  }

  lemma UsernameTooLong()
    ensures ValidateUsername("somerandomlygeneratedusername") == Fail(ClientError(UsernameRules[0].errorMsg))
  {
    FirstFailureAt(UsernameRules, "somerandomlygeneratedusername", 0);
  }

  lemma UsernameStartingWithDigit()
    ensures ValidateUsername("9someusername") == Fail(ClientError(UsernameRules[1].errorMsg))
  {
    var s := "9someusername";
    assert forall i :: 0 <= i < |s| ==> s[i] != '\n';
    FirstFailureAt(UsernameRules, s, 1);
  }

  lemma UsernameWithSpecialChar()
    ensures ValidateUsername("nonumberusername!") == Fail(ClientError(UsernameRules[2].errorMsg))
  {
    var s := "nonumberusername!";
    assert forall i :: 0 <= i < |s| ==> s[i] != '\n';
    assert !IsNameChar(s[16]);
    FirstFailureAt(UsernameRules, s, 2);
  }

  lemma UsernameValid()
    ensures ValidateUsername("valid-username") == Pass
  {
    var s := "valid-username";
    assert forall i :: 0 <= i < |s| ==> IsNameChar(s[i]);
    ValidUsernameIff(s);
  }

  lemma PasswordTooShort()
    ensures ValidatePassword("1random~") == Fail(ClientError(PasswordRules[0].errorMsg))
  {
    FirstFailureAt(PasswordRules, "1random~", 0);
  }

  lemma PasswordWithoutSpecialChar()
    ensures ValidatePassword("1someusername") == Fail(ClientError(PasswordRules[2].errorMsg))
  {
    var s := "1someusername";
    assert forall i :: 0 <= i < |s| ==> s[i] != '\n' && IsNameChar(s[i]);
    assert IsDigit(s[0]);
    FirstFailureAt(PasswordRules, s, 2);
  }

  /** Meant to lack a digit, but at nine characters it is refused by the length rule first. */
  lemma PasswordWithoutDigit()
    ensures ValidatePassword("password~") == Fail(ClientError(PasswordRules[0].errorMsg))
  {
    FirstFailureAt(PasswordRules, "password~", 0);
  }

  lemma PasswordValid()
    ensures ValidatePassword("1validpassword~") == Pass
  {
    var s := "1validpassword~";
    assert forall i :: 0 <= i < |s| ==> s[i] != '\n';
    assert !IsNameChar(s[14]) && IsDigit(s[0]);
    ValidPasswordIff(s);
  }
}
