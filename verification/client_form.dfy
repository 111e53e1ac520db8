/**
 * The browser-side checks of the contact form in script.js (`ContactForm`):
 * the email pattern of `isValidEmail`, the verdict of `validateField` on one
 * input, and the loop of `handleSubmit` over every required input. Each
 * input's `.form-group` error class and `.form-error` text live in two
 * arrays indexed like the inputs.
 */
module ClientForm {

  /** JavaScript's `\s` (and what `String.prototype.trim` removes): white space and line terminators. */
  predicate JsSpace(c: char)
  {
    c == '\t' || c == '\n' || c == '\U{0B}' || c == '\U{0C}' || c == '\r' || c == ' '
    || c == '\U{A0}' || c == '\U{1680}' || ('\U{2000}' <= c <= '\U{200A}')
    || c == '\U{2028}' || c == '\U{2029}' || c == '\U{202F}' || c == '\U{205F}'
    || c == '\U{3000}' || c == '\U{FEFF}'
  }

  /** One run of the pattern's class `[^\s@]+`. */
  predicate Word(s: string)
  {
    |s| > 0 && forall i :: 0 <= i < |s| ==> !JsSpace(s[i]) && s[i] != '@'
  }

  /**
   * The language of `/^[^\s@]+@[^\s@]+\.[^\s@]+$/`: the whole string splits
   * into three words around an `@` at `at` and a `.` at `dot`.
   */
  ghost predicate PatternMatches(email: string)
  {
    exists at, dot :: 0 < at < dot < |email| && email[at] == '@' && email[dot] == '.' &&
      Word(email[..at]) && Word(email[at + 1..dot]) && Word(email[dot + 1..])
  }

  /**
   * `isValidEmail(email)`: no white space, exactly one `@`, something before
   * it, and after it a domain holding a `.` that is neither its first nor its
   * last character.
   */
  predicate IsValidEmail(s: string): (b: bool)
    ensures b ==> 5 <= |s|
  {
    (forall i :: 0 <= i < |s| ==> !JsSpace(s[i])) &&
    exists at :: 0 < at < |s| && s[at] == '@' &&
      (forall i :: 0 <= i < |s| && i != at ==> s[i] != '@') &&
      (exists dot :: at + 1 < dot < |s| - 1 && s[dot] == '.')
  }

  /** A string the pattern matches passes the check. */
  lemma PatternPasses(s: string, at: int, dot: int)
    requires 0 < at < dot < |s| && s[at] == '@' && s[dot] == '.'
    requires Word(s[..at]) && Word(s[at + 1..dot]) && Word(s[dot + 1..])
    ensures IsValidEmail(s)
  {
    forall i | 0 <= i < |s| && i != at
      ensures !JsSpace(s[i]) && s[i] != '@'
    {
      if i < at {
        assert s[..at][i] == s[i];
      } else if at < i < dot {
        assert s[at + 1..dot][i - at - 1] == s[i];
      } else if i > dot {
        assert s[dot + 1..][i - dot - 1] == s[i];
      }
    }
    assert !JsSpace(s[at]);
    assert at + 1 < dot < |s| - 1;
  }

  /** A string that passes the check splits into the pattern's three words. */
  lemma PassesPattern(s: string, at: int, dot: int)
    requires forall i :: 0 <= i < |s| ==> !JsSpace(s[i])
    requires 0 < at < |s| && s[at] == '@' && forall i :: 0 <= i < |s| && i != at ==> s[i] != '@'
    requires at + 1 < dot < |s| - 1 && s[dot] == '.'
    ensures PatternMatches(s)
  {
    assert Word(s[..at]);
    assert Word(s[at + 1..dot]);
    assert Word(s[dot + 1..]);
  }

  /** The check accepts exactly the strings the pattern matches. */
  lemma EmailPatternMeaning(s: string)
    ensures IsValidEmail(s) <==> PatternMatches(s)
  {
    if PatternMatches(s) {
      var at, dot :| 0 < at < dot < |s| && s[at] == '@' && s[dot] == '.' &&
        Word(s[..at]) && Word(s[at + 1..dot]) && Word(s[dot + 1..]);
      PatternPasses(s, at, dot);
    }
    if IsValidEmail(s) {
      var at :| 0 < at < |s| && s[at] == '@' &&
        (forall i :: 0 <= i < |s| && i != at ==> s[i] != '@') &&
        (exists dot :: at + 1 < dot < |s| - 1 && s[dot] == '.');
      var dot :| at + 1 < dot < |s| - 1 && s[dot] == '.';
      PassesPattern(s, at, dot);
    }
  }

  /** `s.trim()`: white space removed from both ends. */
  function Trim(s: string): (r: string)
    ensures |r| <= |s|
    decreases |s|
  {
    if s != [] && JsSpace(s[0]) then Trim(s[1..])
    else if s != [] && JsSpace(s[|s| - 1]) then Trim(s[..|s| - 1])
    else s
  }

  /** Trimming leaves nothing exactly when the value is all white space. */
  lemma {:induction false} TrimEmpty(s: string)
    ensures Trim(s) == [] <==> forall i :: 0 <= i < |s| ==> JsSpace(s[i])
    decreases |s|
  {
    if s != [] && JsSpace(s[0]) {
      TrimEmpty(s[1..]);
      assert forall i :: 1 <= i < |s| ==> s[1..][i - 1] == s[i];
    } else if s != [] && JsSpace(s[|s| - 1]) {
      TrimEmpty(s[..|s| - 1]);
      assert forall i :: 0 <= i < |s| - 1 ==> s[..|s| - 1][i] == s[i];
    }
  }

  /** What the form knows about an input: whether it is `type="email"`. */
  datatype Kind = Text | EmailInput

  /** The outcome of `validateField`. */
  datatype Verdict = Passed | Required | BadEmail

  const REQUIRED_TEXT := "Vui lòng điền thông tin này"
  const EMAIL_TEXT := "Email không hợp lệ"

  /** The error text `validateField` writes for a failed verdict. */
  function ErrorText(v: Verdict): string
  {
    if v == BadEmail then EMAIL_TEXT else REQUIRED_TEXT
  }

  /**
   * The reference description of `validateField`: a value that is only white
   * space is reported as required before anything else; an email input is
   * then checked against the pattern on its untrimmed value.
   */
  function Check(value: string, kind: Kind): (v: Verdict)
    ensures v == BadEmail ==> kind == EmailInput
  {
    if Trim(value) == "" then Required
    else if kind == EmailInput && !IsValidEmail(value) then BadEmail
    else Passed
  }

  /**
   * What each verdict means for the value: blank means only white space, and
   * a bad email is a non-blank email value the pattern does not match.
   */
  lemma CheckMeaning(value: string, kind: Kind)
    ensures Check(value, kind) == Required <==> forall i :: 0 <= i < |value| ==> JsSpace(value[i])
    ensures Check(value, kind) == BadEmail <==>
      (exists i :: 0 <= i < |value| && !JsSpace(value[i])) && kind == EmailInput && !PatternMatches(value)
    ensures Check(value, kind) == Passed <==>
      (exists i :: 0 <= i < |value| && !JsSpace(value[i])) && (kind == EmailInput ==> PatternMatches(value))
  {
    TrimEmpty(value);
    EmailPatternMeaning(value);
  }

  /** The required inputs of the form and the error state of their groups. */
  class ContactForm {
    const values: seq<string>
    const kinds: seq<Kind>
    /** Whether each input's `.form-group` carries `error`. */
    const groupError: array<bool>
    /** Each input's `.form-error` text. */
    const errorText: array<string>

    ghost predicate Valid()
      reads this
    {
      |kinds| == |values| && groupError.Length == |values| && errorText.Length == |values|
    }

    constructor (values: seq<string>, kinds: seq<Kind>, groupError: array<bool>, errorText: array<string>)
      requires |kinds| == |values| && groupError.Length == |values| && errorText.Length == |values|
      ensures this.values == values && this.kinds == kinds
      ensures this.groupError == groupError && this.errorText == errorText
      ensures Valid()
    {
      this.values, this.kinds := values, kinds;
      this.groupError, this.errorText := groupError, errorText;
    }

    /** `validateField(field)` for the input at `i`: marks or clears its group and reports whether it passed. */
    method ValidateField(i: int) returns (ok: bool)
      requires Valid() && 0 <= i < |values|
      modifies groupError, errorText
      ensures ok <==> Check(values[i], kinds[i]) == Passed
      ensures groupError[i] == !ok
      ensures errorText[i] == if ok then old(errorText[i]) else ErrorText(Check(values[i], kinds[i]))
      ensures forall j :: 0 <= j < |values| && j != i ==> groupError[j] == old(groupError[j]) && errorText[j] == old(errorText[j])
    {
      var value := values[i];
      if Trim(value) == "" {
        groupError[i] := true;
        errorText[i] := REQUIRED_TEXT;
        return false;
      }
      if kinds[i] == EmailInput && !IsValidEmail(value) {
        groupError[i] := true;
        errorText[i] := EMAIL_TEXT;
        return false;
      }
      groupError[i] := false;
      return true;
    }

    /** `clearError(field)`, run on every keystroke: a value that is not blank clears its group's error mark. */
    method ClearError(i: int)
      requires Valid() && 0 <= i < |values|
      modifies groupError
      ensures groupError[i] == (old(groupError[i]) && Trim(values[i]) == [])
      ensures forall j :: 0 <= j < |values| && j != i ==> groupError[j] == old(groupError[j])
    {
      if Trim(values[i]) != "" {
        groupError[i] := false;
      }
    }

    /**
     * The validation part of `handleSubmit`: every required input is
     * validated, failures do not stop the loop, and the submission goes on
     * only when all of them passed.
     */
    method HandleSubmit() returns (proceed: bool)
      requires Valid()
      modifies groupError, errorText
      ensures proceed <==> forall i :: 0 <= i < |values| ==> Check(values[i], kinds[i]) == Passed
      ensures forall i :: 0 <= i < |values| ==> (groupError[i] <==> Check(values[i], kinds[i]) != Passed)
      ensures forall i :: 0 <= i < |values| ==>
        errorText[i] == if Check(values[i], kinds[i]) == Passed then old(errorText[i]) else ErrorText(Check(values[i], kinds[i]))
    {
      ghost var verdicts := seq(|values|, j requires 0 <= j < |values| => Check(values[j], kinds[j]));
      ghost var before := errorText[..];
      assert forall j :: 0 <= j < |values| ==> verdicts[j] == Check(values[j], kinds[j]);
      var isValid := true;
      var i := 0;
      while i < |values|
        invariant 0 <= i <= |values|
        invariant isValid <==> forall j :: 0 <= j < i ==> verdicts[j] == Passed
        invariant forall j :: 0 <= j < i ==> groupError[j] == (verdicts[j] != Passed)
        invariant forall j :: 0 <= j < |values| ==>
          errorText[j] == if j < i && verdicts[j] != Passed then ErrorText(verdicts[j]) else before[j]
      {
        var ok := ValidateField(i);
        assert ok <==> verdicts[i] == Passed;
        if !ok {
          isValid := false;
        }
        i := i + 1;
      }
      proceed := isValid;
    }
  }
}
