/**
 * Submissions (src/models/Submission/submission.ts): the status enum, which
 * mixes five storable review states with three display-only labels, the
 * schema's status check and default, and the demo-video URL validator.
 */
module SubmissionModel {
  import opened Common

  datatype SubmissionStatus =
    | Pending
    | AdminApproved
    | AdminRejected
    | JudgeApproved
    | JudgeRejected
    | DisplayUnderEval
    | DisplayRejected
    | DisplayQualified

  /** The string value of each enum member. */
  function StatusName(s: SubmissionStatus): string {
    match s
    case Pending => "pending"
    case AdminApproved => "admin-ap"
    case AdminRejected => "admin-rj"
    case JudgeApproved => "judge-ap"
    case JudgeRejected => "judge-rj"
    case DisplayUnderEval => "Under Evaluation"
    case DisplayRejected => "Not qualified"
    case DisplayQualified => "QUALIFIED"
  }

  /** The members listed in the schema's `enum` for the stored `status` field. */
  predicate IsStorable(s: SubmissionStatus) {
    s in {Pending, AdminApproved, AdminRejected, JudgeApproved, JudgeRejected}
  }

  /** The three labels that only ever appear in responses. */
  predicate IsDisplay(s: SubmissionStatus) {
    s in {DisplayUnderEval, DisplayRejected, DisplayQualified}
  }

  /** A status the schema's default puts on a new submission. */
  const DefaultStatus: SubmissionStatus := Pending

  /**
   * The schema's enum validator on a status string: it accepts exactly the
   * names of the five storable members.
   */
  function ParseStoredStatus(name: string): (r: Option<SubmissionStatus>)
    ensures r.Some? ==> IsStorable(r.value) && StatusName(r.value) == name
    ensures r.None? <==> forall s :: IsStorable(s) ==> StatusName(s) != name
  {
    if name == "pending" then Some(Pending)
    else if name == "admin-ap" then Some(AdminApproved)
    else if name == "admin-rj" then Some(AdminRejected)
    else if name == "judge-ap" then Some(JudgeApproved)
    else if name == "judge-rj" then Some(JudgeRejected)
    else None
  }

  /** The eight names are pairwise distinct. */
  lemma StatusNameInjective(a: SubmissionStatus, b: SubmissionStatus)
    ensures StatusName(a) == StatusName(b) ==> a == b
  {
  }

  /**
   * The display labels are not in the stored enum: writing one into the
   * `status` field is refused by the schema, and every status is exactly one
   * of storable or display.
   */
  lemma DisplayNotStorable(s: SubmissionStatus)
    ensures IsStorable(s) != IsDisplay(s)
    ensures IsDisplay(s) ==> ParseStoredStatus(StatusName(s)) == None
    ensures IsStorable(s) ==> ParseStoredStatus(StatusName(s)) == Some(s)
  {
    if IsDisplay(s) {
      forall t | IsStorable(t) ensures StatusName(t) != StatusName(s) {
        StatusNameInjective(t, s);
      }
    }
  }

  // ---------------------------------------------------------------------
  // The demo-video URL validator: /^(https?:\/\/[^\s$.?#].[^\s]*)$/i
  // ---------------------------------------------------------------------

  /** `p` is a prefix of `s` when ASCII letters are compared without case (the `i` flag). */
  predicate HasPrefixIgnoreCase(s: string, p: string) {
    |p| <= |s| && forall i :: 0 <= i < |p| ==> LowerChar(s[i]) == LowerChar(p[i])
  }

  /** What follows the scheme when `v` starts with `http://` or `https://` in any case. */
  function AfterScheme(v: string): (r: Option<string>)
    ensures r.Some? ==> |r.value| < |v| && r.value == v[|v| - |r.value|..]
    ensures r.Some? <==> HasPrefixIgnoreCase(v, "https://") || HasPrefixIgnoreCase(v, "http://")
  {
    if HasPrefixIgnoreCase(v, "https://") then Some(v[8..])
    else if HasPrefixIgnoreCase(v, "http://") then Some(v[7..])
    else None
  }

  /** The class `[^\s$.?#]`. */
  predicate HostStart(c: char) {
    !IsJsSpace(c) && c != '$' && c != '.' && c != '?' && c != '#'
  }

  /**
   * The regex as a predicate: the scheme, one character of `[^\s$.?#]`, one
   * character that `.` matches (anything but a line terminator), and then
   * only non-whitespace up to the end of the string.
   */
  predicate VideoUrlValid(v: string) {
    match AfterScheme(v)
    case None => false
    case Some(rest) =>
      |rest| >= 2 && HostStart(rest[0]) && !IsLineTerminator(rest[1])
      && forall i :: 2 <= i < |rest| ==> !IsJsSpace(rest[i])
  }

  /** An accepted URL is at least nine characters long and holds no line break. */
  lemma VideoUrlShape(v: string)
    requires VideoUrlValid(v)
    ensures |v| >= 9
    ensures forall i :: 0 <= i < |v| ==> !IsLineTerminator(v[i])
  {
    var rest := AfterScheme(v).value;
    var k := |v| - |rest|;
    assert k == 7 || k == 8;
    forall i | 0 <= i < |v| ensures !IsLineTerminator(v[i]) {
      if i >= k {
        assert v[i] == rest[i - k];
      } else if k == 8 {
        assert LowerChar(v[i]) == LowerChar("https://"[i]);
      } else {
        assert LowerChar(v[i]) == LowerChar("http://"[i]);
      }
    }
  }

  /** The scheme is matched without regard to case (the `i` flag): an upper-case scheme accepts what the lower-case one does. */
  lemma SchemeCaseIgnored(rest: string)
    ensures AfterScheme("HTTPS://" + rest) == AfterScheme("https://" + rest) == Some(rest)
    ensures AfterScheme("HTTP://" + rest) == AfterScheme("http://" + rest) == Some(rest)
    ensures VideoUrlValid("HTTPS://" + rest) <==> VideoUrlValid("https://" + rest)
    ensures VideoUrlValid("HTTP://" + rest) <==> VideoUrlValid("http://" + rest)
  {
    var u, l := "HTTPS://" + rest, "https://" + rest;
    assert HasPrefixIgnoreCase(u, "https://") && HasPrefixIgnoreCase(l, "https://");
    assert u[8..] == rest && l[8..] == rest;
    var u', l' := "HTTP://" + rest, "http://" + rest;
    assert LowerChar(u'[4]) != LowerChar("https://"[4]) && LowerChar(l'[4]) != LowerChar("https://"[4]);
    assert HasPrefixIgnoreCase(u', "http://") && HasPrefixIgnoreCase(l', "http://");
    assert u'[7..] == rest && l'[7..] == rest;
  }

  /** The character right after the scheme must be in `[^\s$.?#]`: a dot, `$`, `?`, `#` or a space there is refused. */
  lemma HostStartRequired(scheme: string, c: char, tail: string)
    requires scheme == "http://" || scheme == "https://"
    ensures VideoUrlValid(scheme + [c] + tail) ==> HostStart(c)
  {
    var v := scheme + [c] + tail;
    if scheme == "https://" {
      assert HasPrefixIgnoreCase(v, "https://");
      assert v[8..] == [c] + tail;
    } else {
      assert LowerChar(v[4]) != LowerChar("https://"[4]);
      assert HasPrefixIgnoreCase(v, "http://");
      assert v[7..] == [c] + tail;
    }
  }

}
