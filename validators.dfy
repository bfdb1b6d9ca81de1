/**
 * The field rules of src/models/User/Validators/Validators.ts. Each chain
 * that starts with `.trim()` rewrites the field, so every later rule on that
 * field sees the trimmed text. Each rule is written twice: once as the
 * regular expression reads (an anchored class, a search, a bounded
 * repetition) and once as a plain description of the accepted strings, with
 * a lemma that the two agree.
 */
module Validators {
  import opened Common
  import opened Paging

  // ---------------------------------------------------------------------
  // isLength
  // ---------------------------------------------------------------------

  /** The variation selectors U+FE0E and U+FE0F. */
  predicate IsVariationSelector(c: char) {
    c == '\U{FE0E}' || c == '\U{FE0F}'
  }

  /**
   * The length validator.js's `isLength` measures: a surrogate pair counts
   * once (as one `char` does here) and a variation selector not at all.
   */
  function IsLengthOf(s: string): (r: nat)
    ensures r == |s| - multiset(s)['\U{FE0E}'] - multiset(s)['\U{FE0F}']
  {
    if |s| == 0 then 0
    else
      var n := |s| - 1;
      assert s == s[..n] + [s[n]];
      IsLengthOf(s[..n]) + (if IsVariationSelector(s[n]) then 0 else 1)
  }

  /** A variation selector appended to a text leaves its measured length as it was. */
  lemma VariationSelectorsNotCounted(s: string)
    ensures IsLengthOf(s + ['\U{FE0F}']) == IsLengthOf(s) && IsLengthOf(s + ['\U{FE0E}']) == IsLengthOf(s)
    ensures IsLengthOf(s) <= |s|
  {
    assert (s + ['\U{FE0F}'])[..|s|] == s;
    assert (s + ['\U{FE0E}'])[..|s|] == s;
  }

  // ---------------------------------------------------------------------
  // username: trim, notEmpty, 3..200 characters, /^[a-zA-Z0-9_ ]+$/
  // ---------------------------------------------------------------------

  predicate UsernameChar(c: char) {
    IsAlnum(c) || c == '_' || c == ' '
  }

  /** `^[c]+$`, consumed one character at a time. */
  predicate ClassPlus(s: string, c: char -> bool) {
    |s| > 0 && c(s[0]) && (|s| == 1 || ClassPlus(s[1..], c))
  }

  lemma {:induction false} ClassPlusIsAll(s: string, c: char -> bool)
    ensures ClassPlus(s, c) <==> |s| > 0 && forall i :: 0 <= i < |s| ==> c(s[i])
  {
    if |s| > 1 {
      ClassPlusIsAll(s[1..], c);
      if forall i :: 0 <= i < |s| ==> c(s[i]) {
        assert forall i :: 0 <= i < |s[1..]| ==> c(s[1..][i]) by {
          forall i | 0 <= i < |s[1..]| ensures c(s[1..][i]) { assert s[1..][i] == s[i + 1]; }
        }
      }
      if ClassPlus(s, c) {
        forall i | 0 <= i < |s| ensures c(s[i]) {
          if i > 0 { assert s[i] == s[1..][i - 1]; }
        }
      }
    }
  }

  predicate UsernameValid(raw: string) {
    var s := Trim(raw);
    s != "" && 3 <= IsLengthOf(s) && IsLengthOf(s) <= 200 && ClassPlus(s, UsernameChar)
  }

  /** The name that is accepted is stored trimmed: 3 to 200 letters, digits, `_` and inner spaces. */
  lemma UsernameShape(raw: string)
    ensures UsernameValid(raw) <==>
      var s := Trim(raw);
      3 <= |s| <= 200 && forall i :: 0 <= i < |s| ==> UsernameChar(s[i])
    ensures UsernameValid(raw) ==> Trim(raw)[0] != ' ' && Trim(raw)[|Trim(raw)| - 1] != ' '
  {
    var s := Trim(raw);
    ClassPlusIsAll(s, UsernameChar);
    if forall i :: 0 <= i < |s| ==> UsernameChar(s[i]) {
      assert '\U{FE0E}' !in s && '\U{FE0F}' !in s;
    }
  }

  // ---------------------------------------------------------------------
  // password: trim, notEmpty, length >= 8 and one character of each class
  // ---------------------------------------------------------------------

  predicate IsSpecial(c: char) { !IsAlnum(c) }

  /** An unanchored one-class regex such as `/[A-Z]/` finds a match. */
  predicate Finds(s: string, c: char -> bool) {
    First(s, c).Some?
  }

  /**
   * The password rules of both `registerValidator` and
   * `resetPasswordValidator`. The message of the length rule says 6; the
   * rule itself asks for 8.
   */
  predicate PasswordValid(raw: string) {
    var s := Trim(raw);
    s != "" && IsLengthOf(s) >= 8
    && Finds(s, IsUpper) && Finds(s, IsLower) && Finds(s, IsDigit) && Finds(s, IsSpecial)
  }

  /**
   * The stored password has 8 or more characters other than variation
   * selectors, and one of each class.
   */
  lemma PasswordShape(raw: string)
    ensures PasswordValid(raw) <==>
      var s := Trim(raw);
      |s| - multiset(s)['\U{FE0E}'] - multiset(s)['\U{FE0F}'] >= 8
      && (exists i :: 0 <= i < |s| && IsUpper(s[i]))
      && (exists i :: 0 <= i < |s| && IsLower(s[i]))
      && (exists i :: 0 <= i < |s| && IsDigit(s[i]))
      && (exists i :: 0 <= i < |s| && IsSpecial(s[i]))
  {
  }

  /**
   * Every password shorter than 8 characters after trimming is refused,
   * including a six-character one with every class, the length the message
   * names.
   */
  lemma ShortPasswordRefused(raw: string)
    ensures |Trim(raw)| < 8 ==> !PasswordValid(raw)
    ensures !PasswordValid("Aa1!bc")
  {
    assert |Trim("Aa1!bc")| <= 6;
    VariationSelectorsNotCounted(Trim(raw));
  }

  /** The measured length of a concatenation is the sum of the parts' lengths. */
  lemma IsLengthConcat(a: string, b: string)
    ensures IsLengthOf(a + b) == IsLengthOf(a) + IsLengthOf(b)
  {
    assert multiset(a + b) == multiset(a) + multiset(b);
  }

  /** Trimming never makes the measured length longer. */
  lemma TrimShortens(s: string)
    ensures IsLengthOf(Trim(s)) <= IsLengthOf(s)
  {
    var t := TrimStart(s);
    var k := |s| - |t|;
    assert s == s[..k] + t;
    IsLengthConcat(s[..k], t);
    var u := TrimEnd(t);
    assert t == u + t[|u|..];
    IsLengthConcat(u, t[|u|..]);
  }

  /**
   * A password of at most four characters padded with four variation
   * selectors is eight characters long and yet refused: the selectors do
   * not count towards the 8.
   */
  lemma SelectorPaddedPasswordRefused(p: string)
    requires |p| <= 4
    ensures |p + "\U{FE0F}\U{FE0F}\U{FE0F}\U{FE0F}"| == |p| + 4
    ensures !PasswordValid(p + "\U{FE0F}\U{FE0F}\U{FE0F}\U{FE0F}")
  {
    var f := '\U{FE0F}';
    var pad := "\U{FE0F}\U{FE0F}\U{FE0F}\U{FE0F}";
    assert pad == [] + [f] + [f] + [f] + [f];
    VariationSelectorsNotCounted([]);
    VariationSelectorsNotCounted([f]);
    VariationSelectorsNotCounted([f] + [f]);
    VariationSelectorsNotCounted([f] + [f] + [f]);
    IsLengthConcat(p, pad);
    VariationSelectorsNotCounted(p);
    TrimShortens(p + pad);
  }

  // ---------------------------------------------------------------------
  // mobile_number: trim, notEmpty, /^\+(?:[0-9] ?){6,14}[0-9]$/
  // ---------------------------------------------------------------------

  /** `(?:[0-9] ?){k}[0-9]$` matches all of `r`. */
  predicate Groups(r: string, k: nat)
    decreases k
  {
    if k == 0 then |r| == 1 && IsDigit(r[0])
    else
      |r| >= 1 && IsDigit(r[0])
      && (Groups(r[1..], k - 1) || (|r| >= 2 && r[1] == ' ' && Groups(r[2..], k - 1)))
  }

  predicate MobileMatches(s: string) {
    |s| >= 1 && s[0] == '+' && exists k :: 6 <= k <= 14 && Groups(s[1..], k)
  }

  predicate MobileValid(raw: string) {
    var s := Trim(raw);
    s != "" && MobileMatches(s)
  }

  function DigitCount(r: string): nat {
    if |r| == 0 then 0 else (if IsDigit(r[0]) then 1 else 0) + DigitCount(r[1..])
  }

  /**
   * Digits and single spaces, starting and ending with a digit: a space
   * may follow any digit but the last.
   */
  predicate SpacedDigits(r: string) {
    |r| > 0 && IsDigit(r[0]) && IsDigit(r[|r| - 1])
    && (forall i :: 0 <= i < |r| ==> IsDigit(r[i]) || r[i] == ' ')
    && (forall i :: 0 <= i < |r| - 1 && r[i] == ' ' ==> r[i + 1] != ' ')
  }

  lemma {:induction false} DigitCountPositive(r: string, j: nat)
    requires j < |r| && IsDigit(r[j])
    ensures DigitCount(r) >= 1
  {
    if j > 0 {
      assert r[1..][j - 1] == r[j];
      DigitCountPositive(r[1..], j - 1);
    }
  }

  lemma SpacedDigitsTail(r: string, n: nat)
    requires SpacedDigits(r) && 1 <= n < |r| && IsDigit(r[n])
    ensures SpacedDigits(r[n..])
  {
    var t := r[n..];
    assert t[|t| - 1] == r[|r| - 1];
    forall i | 0 <= i < |t| ensures IsDigit(t[i]) || t[i] == ' ' {
      assert t[i] == r[i + n];
    }
    forall i | 0 <= i < |t| - 1 && t[i] == ' ' ensures t[i + 1] != ' ' {
      assert t[i] == r[i + n] && t[i + 1] == r[i + n + 1];
    }
  }

  lemma {:induction false} GroupsAreSpacedDigits(r: string, k: nat)
    requires Groups(r, k)
    ensures SpacedDigits(r) && DigitCount(r) == k + 1
    decreases k
  {
    if k > 0 {
      if Groups(r[1..], k - 1) {
        GroupsAreSpacedDigits(r[1..], k - 1);
        var t := r[1..];
        forall i | 0 <= i < |r| ensures IsDigit(r[i]) || r[i] == ' ' {
          if i > 0 { assert r[i] == t[i - 1]; }
        }
        forall i | 0 <= i < |r| - 1 && r[i] == ' ' ensures r[i + 1] != ' ' {
          assert r[i] == t[i - 1] && r[i + 1] == t[i];
        }
      } else {
        var t := r[2..];
        GroupsAreSpacedDigits(t, k - 1);
        assert r[1..][1..] == t;
        forall i | 0 <= i < |r| ensures IsDigit(r[i]) || r[i] == ' ' {
          if i > 1 { assert r[i] == t[i - 2]; }
        }
        forall i | 0 <= i < |r| - 1 && r[i] == ' ' ensures r[i + 1] != ' ' {
          if i > 1 { assert r[i] == t[i - 2] && r[i + 1] == t[i - 1]; }
          else { assert r[i + 1] == t[0]; }
        }
      }
    }
  }

  lemma {:induction false} SpacedDigitsAreGroups(r: string, k: nat)
    requires SpacedDigits(r) && DigitCount(r) == k + 1
    ensures Groups(r, k)
    decreases k
  {
    if |r| > 1 {
      DigitCountPositive(r[1..], |r| - 2);
    }
    if k > 0 {
      if IsDigit(r[1]) {
        SpacedDigitsTail(r, 1);
        SpacedDigitsAreGroups(r[1..], k - 1);
      } else {
        assert r[1] == ' ';
        assert r[1..][1..] == r[2..];
        assert |r| > 2 && IsDigit(r[2]);
        SpacedDigitsTail(r, 2);
        SpacedDigitsAreGroups(r[2..], k - 1);
      }
    }
  }

  /** The mobile regex accepts exactly "+" and then 7 to 15 digits with single spaces between them. */
  lemma MobileShape(raw: string)
    ensures MobileValid(raw) <==>
      var s := Trim(raw);
      |s| >= 2 && s[0] == '+' && SpacedDigits(s[1..]) && 7 <= DigitCount(s[1..]) <= 15
  {
    var s := Trim(raw);
    if MobileValid(raw) {
      var k :| 6 <= k <= 14 && Groups(s[1..], k);
      GroupsAreSpacedDigits(s[1..], k);
    }
    if |s| >= 2 && s[0] == '+' && SpacedDigits(s[1..]) && 7 <= DigitCount(s[1..]) <= 15 {
      var k := DigitCount(s[1..]) - 1;
      SpacedDigitsAreGroups(s[1..], k);
      assert Groups(s[1..], k);
    }
  }

  // ---------------------------------------------------------------------
  // gender: trim, notEmpty, isIn(["Male", "Female", "Other"])
  // ---------------------------------------------------------------------

  predicate GenderValid(raw: string) {
    var s := Trim(raw);
    s != "" && s in ["Male", "Female", "Other"]
  }

  /** After trimming, exactly the three spellings pass. */
  lemma GenderExact(raw: string)
    ensures GenderValid(raw) <==> Trim(raw) == "Male" || Trim(raw) == "Female" || Trim(raw) == "Other"
  {
  }

  // ---------------------------------------------------------------------
  // registerValidator, resetPasswordValidator, listUsersValidator
  // ---------------------------------------------------------------------

  /** The rules of `registerValidator` on the fields it checks by form (the e-mail and college checks are not part of this model). */
  predicate RegisterFieldsValid(username: string, password: string, mobile: string, gender: string) {
    UsernameValid(username) && PasswordValid(password) && MobileValid(mobile) && GenderValid(gender)
  }

  /** `resetPasswordValidator`: the registration password rules and a non-blank token. */
  predicate ResetFieldsValid(password: string, token: string) {
    PasswordValid(password) && Trim(token) != ""
  }

  /**
   * The sanitised value that is stored passes the same rules again: every
   * rule reads the trimmed text, and trimming twice is trimming once.
   */
  lemma StoredValuesRevalidate(username: string, password: string, mobile: string, gender: string)
    ensures RegisterFieldsValid(username, password, mobile, gender) ==>
      RegisterFieldsValid(Trim(username), Trim(password), Trim(mobile), Trim(gender))
  {
    TrimIdempotent(username);
    TrimIdempotent(password);
    TrimIdempotent(mobile);
    TrimIdempotent(gender);
  }

  /**
   * `listUsersValidator`: a limit, when present, is an integer in
   * `[1, 3000]`; an offset, when present, is an integer `>= 0`.
   */
  predicate ListBoundsValid(limit: QueryParam, offset: QueryParam) {
    (limit.Absent? || (limit.Numeric? && 1 <= limit.value <= 3000))
    && (offset.Absent? || (offset.Numeric? && offset.value >= 0))
  }

  /**
   * Parameters the validator lets through are never refused by the
   * handler's own limit check, and an offset inside the collection is kept.
   */
  lemma ListBoundsAdmitted(limit: QueryParam, offset: QueryParam, total: nat)
    requires ListBoundsValid(limit, offset)
    ensures ListUsersWindow(limit, offset, total).Ok?
    ensures ListUsersWindow(limit, offset, total).value.limit == (if limit.Absent? then 10 else limit.value)
    ensures offset.Numeric? && offset.value <= total ==> ListUsersWindow(limit, offset, total).value.offset == offset.value
  {
  }
}
