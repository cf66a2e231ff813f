/** The `formSchema` of src/app/authclient/Register/page.tsx: a minimum name
    length, the email check, the password's minimum length and pattern, and
    the refinement that the confirmation repeats the password. */
module RegisterForm {
  import opened Common

  // ---------------------------------------------------------------------------
  // The password pattern
  // ---------------------------------------------------------------------------

  /** The pattern's minimum length (`{8,}`) and the schema's `min(8)`. */
  const MinLength := 8

  predicate IsLowerLetter(c: char) { 'a' <= c <= 'z' }
  predicate IsUpperLetter(c: char) { 'A' <= c <= 'Z' }
  /** `\d`: an ASCII digit. */
  predicate IsDigit(c: char) { '0' <= c <= '9' }
  /** The class `[@$!%*?&]`. */
  predicate IsSpecial(c: char) { c in "@$!%*?&" }

  /** The class `[A-Za-z\d@$!%*?&]` every character of the password is drawn from. */
  predicate IsAllowed(c: char)
  {
    IsLowerLetter(c) || IsUpperLetter(c) || IsDigit(c) || IsSpecial(c)
  }

  /** The characters `.` does not match: the line terminators. */
  predicate IsLineTerminator(c: char)
  {
    c == '\n' || c == '\r' || c == '\U{2028}' || c == '\U{2029}'
  }

  /** The lookahead `(?=.*[class])` at the start of the input: some character
      of the class is preceded only by characters `.` matches. */
  predicate Lookahead(s: string, inClass: char -> bool)
  {
    exists j :: 0 <= j < |s| && inClass(s[j]) && forall k :: 0 <= k < j ==> !IsLineTerminator(s[k])
  }

  /** The anchored body `^[A-Za-z\d@$!%*?&]{8,}$`. */
  predicate BodyMatches(s: string)
  {
    |s| >= MinLength && forall i :: 0 <= i < |s| ==> IsAllowed(s[i])
  }

  /** The whole pattern `^(?=.*[a-z])(?=.*[A-Z])(?=.*\d)(?=.*[@$!%*?&])[A-Za-z\d@$!%*?&]{8,}$`
      (no flags, so `$` is the end of the input). */
  predicate RegexMatches(s: string)
    ensures RegexMatches(s) ==> Utf16Length(s) == |s| >= MinLength
    ensures RegexMatches(s) ==> Contains(s, IsLowerLetter) && Contains(s, IsSpecial)
  {
    AllowedLength(s);
    && Lookahead(s, IsLowerLetter)
    && Lookahead(s, IsUpperLetter)
    && Lookahead(s, IsDigit)
    && Lookahead(s, IsSpecial)
    && BodyMatches(s)
  }

  /** Allowed characters are ASCII, so the pattern's `{8,}`, which counts
      UTF-16 code units, counts characters. */
  lemma AllowedLength(s: string)
    ensures (forall i :: 0 <= i < |s| ==> IsAllowed(s[i])) ==> Utf16Length(s) == |s|
  {
    if forall i :: 0 <= i < |s| ==> IsAllowed(s[i]) {
      Utf16LengthOfBmp(s);
    }
  }

  predicate Contains(s: string, inClass: char -> bool)
  {
    exists i :: 0 <= i < |s| && inClass(s[i])
  }

  /** The password rule in plain terms: at least 8 characters, all from the
      allowed set, with a lower-case letter, an upper-case letter, a digit and
      one of `@$!%*?&`. */
  predicate PasswordPolicy(s: string)
  {
    && |s| >= MinLength
    && (forall i :: 0 <= i < |s| ==> IsAllowed(s[i]))
    && Contains(s, IsLowerLetter)
    && Contains(s, IsUpperLetter)
    && Contains(s, IsDigit)
    && Contains(s, IsSpecial)
  }

  /** A lookahead on an input whose characters are all allowed finds exactly
      the characters of its class, since no allowed character is a line
      terminator. */
  lemma LookaheadOnAllowed(s: string, inClass: char -> bool)
    requires forall i :: 0 <= i < |s| ==> IsAllowed(s[i])
    ensures Lookahead(s, inClass) <==> Contains(s, inClass)
  {
    if Contains(s, inClass) {
      var j :| 0 <= j < |s| && inClass(s[j]);
      assert forall k :: 0 <= k < j ==> IsAllowed(s[k]) && !IsLineTerminator(s[k]);
    }
  }

  /** The pattern accepts exactly the passwords that follow the rule. */
  lemma RegexIsPolicy(s: string)
    ensures RegexMatches(s) <==> PasswordPolicy(s)
  {
    if BodyMatches(s) {
      LookaheadOnAllowed(s, IsLowerLetter);
      LookaheadOnAllowed(s, IsUpperLetter);
      LookaheadOnAllowed(s, IsDigit);
      LookaheadOnAllowed(s, IsSpecial);
    }
  }

  /** A single character outside the allowed set makes the pattern fail,
      whatever else the password contains. */
  lemma ForbiddenCharRejected(s: string, i: nat)
    requires i < |s| && !IsAllowed(s[i])
    ensures !RegexMatches(s)
  {
  }

  /** A password of nine allowed characters with all four kinds matches. */
  lemma SamplePasswordAccepted()
    ensures RegexMatches("Passw0rd!")
  {
    var s := "Passw0rd!";
    assert IsSpecial(s[8]) by { assert s[8] == "@$!%*?&"[2]; }
    assert forall i :: 0 <= i < |s| ==> IsAllowed(s[i]) by {
      forall i | 0 <= i < |s| ensures IsAllowed(s[i]) {
        if i == 8 { } else if i == 5 { assert IsDigit(s[i]); } else { assert IsLowerLetter(s[i]) || IsUpperLetter(s[i]); }
      }
    }
    assert IsUpperLetter(s[0]) && IsLowerLetter(s[1]) && IsDigit(s[5]);
    RegexIsPolicy(s);
  }

  // ---------------------------------------------------------------------------
  // The form schema
  // ---------------------------------------------------------------------------

  datatype FormValues = FormValues(name: string, email: string, password: string, confirmPassword: string)

  datatype Field = Name | Email | Password | ConfirmPassword

  /** One validation issue: the field it is reported on and its message. */
  datatype Issue = Issue(path: Field, message: string)

  const NameTooShort := Issue(Name, "Name must be at least 2 characters")
  const InvalidEmail := Issue(Email, "Invalid email address")
  const PasswordTooShort := Issue(Password, "Password must be at least 8 characters")
  const PasswordTooWeak := Issue(Password, "Password must contain at least one uppercase letter, one lowercase letter, one number, and one special character")
  const PasswordsDiffer := Issue(ConfirmPassword, "Passwords do not match")

  /** Parsing the form: every field check runs and reports its issue, in
      field order, and the confirm-match refinement runs after them even when
      they reported issues (failed string checks do not abort the object).
      `min` counts UTF-16 code units. `isEmail` is the schema library's email
      check. */
  function ParseForm(v: FormValues, isEmail: string -> bool): (issues: seq<Issue>)
    ensures issues == [] <==>
              Utf16Length(v.name) >= 2 && isEmail(v.email) && PasswordPolicy(v.password) && v.password == v.confirmPassword
    ensures NameTooShort in issues <==> Utf16Length(v.name) < 2
    ensures PasswordTooShort in issues <==> Utf16Length(v.password) < MinLength
    ensures PasswordsDiffer in issues <==> v.password != v.confirmPassword
    ensures (exists i :: 0 <= i < |issues| && issues[i].path == ConfirmPassword) <==> v.password != v.confirmPassword
    ensures PasswordTooShort in issues ==> PasswordTooWeak in issues
    ensures forall c :: c in v.password && !IsAllowed(c) ==> PasswordTooWeak in issues
  {
    RegexIsPolicy(v.password);
    var issues :=
      (if Utf16Length(v.name) < 2 then [NameTooShort] else [])
      + (if !isEmail(v.email) then [InvalidEmail] else [])
      + (if Utf16Length(v.password) < MinLength then [PasswordTooShort] else [])
      + (if !RegexMatches(v.password) then [PasswordTooWeak] else [])
      + (if v.password != v.confirmPassword then [PasswordsDiffer] else []);
    assert v.password != v.confirmPassword ==> issues[|issues| - 1] == PasswordsDiffer;
    issues
  }

  /** A name is accepted exactly when its JavaScript length is at least two. */
  lemma NameRule(v: FormValues, isEmail: string -> bool)
    ensures (forall i :: 0 <= i < |ParseForm(v, isEmail)| ==> ParseForm(v, isEmail)[i].path != Name)
              <==> Utf16Length(v.name) >= 2
  {
    var issues := ParseForm(v, isEmail);
    if Utf16Length(v.name) < 2 {
      assert issues[0] == NameTooShort;
    }
  }
}
