/**
 * Shared vocabulary of the model: optional values, handler results, the HTTP
 * error classes of the service, first-match search over a collection, and the
 * JavaScript character classes that the validators and regexes rely on.
 */
module Common {

  /** Every document id (a Mongo ObjectId) is modelled by its value. */
  type Id = nat

  datatype Option<+T> = None | Some(value: T)

  /**
   * The error a handler ends with. The first six are the HttpException
   * subclasses of src/models/exceptions.ts; `Internal` is a plain `Error`
   * thrown by a handler and passed on to the error middleware.
   */
  datatype Failure =
    | BadRequest      // 400
    | Unauthorized    // 401
    | Forbidden       // 403
    | NotFound        // 404
    | Conflict        // 409
    | Unprocessable   // 422
    | Internal        // a plain Error

  /** A handler that either completes or fails. */
  datatype Outcome = Pass | Fail(error: Failure)

  /** A handler or query that yields a value or fails. */
  datatype Result<+T> = Ok(value: T) | Err(error: Failure)

  /**
   * Index of the first element satisfying `p`: the semantics of `findOne`
   * on a collection read in its natural order and of `Array.prototype.find`.
   */
  function First<T>(s: seq<T>, p: T -> bool): (r: Option<nat>)
    ensures r.Some? ==> r.value < |s| && p(s[r.value])
    ensures r.Some? ==> forall j :: 0 <= j < r.value ==> !p(s[j])
    ensures r.None? <==> forall j :: 0 <= j < |s| ==> !p(s[j])
  {
    if |s| == 0 then None
    else if p(s[0]) then Some(0)
    else match First(s[1..], p)
      case None => None
      case Some(i) => Some(i + 1)
  }

  /** `First` is determined by its contract: any index that is a first match, or none when there is none, is its result. */
  lemma FirstIs<T>(s: seq<T>, p: T -> bool, k: Option<nat>)
    requires k.Some? ==> k.value < |s| && p(s[k.value]) && forall j :: 0 <= j < k.value ==> !p(s[j])
    requires k.None? ==> forall j :: 0 <= j < |s| ==> !p(s[j])
    ensures First(s, p) == k
  {
    var f := First(s, p);
    if f.Some? && k.Some? {
      assert !(f.value < k.value) && !(k.value < f.value);
    }
  }

  /** Appending leaves an earlier first match where it was, and otherwise may add one at the end. */
  lemma FirstAppend<T>(s: seq<T>, x: T, p: T -> bool)
    ensures First(s + [x], p) == if First(s, p).Some? then First(s, p) else if p(x) then Some(|s|) else None
  {
    var k := if First(s, p).Some? then First(s, p) else if p(x) then Some(|s|) else None;
    assert forall j :: 0 <= j < |s| ==> (s + [x])[j] == s[j];
    FirstIs(s + [x], p, k);
  }

  /** Replacing an element by one that agrees on `p` leaves the first match where it was. */
  lemma FirstUpdate<T>(s: seq<T>, i: nat, x: T, p: T -> bool)
    requires i < |s| && p(x) == p(s[i])
    ensures First(s[i := x], p) == First(s, p)
  {
    assert forall j :: 0 <= j < |s| ==> p(s[i := x][j]) == p(s[j]);
    FirstIs(s[i := x], p, First(s, p));
  }

  /** `s.filter(e => e !== x)`: every occurrence of `x` removed, the rest in order. */
  function Without<T(==,!new)>(s: seq<T>, x: T): (r: seq<T>)
    ensures x !in r
    ensures forall y :: y in r <==> y in s && y != x
    ensures multiset(r) == multiset(s)[x := 0]
  {
    if |s| == 0 then []
    else
      assert s == [s[0]] + s[1..];
      if s[0] == x then Without(s[1..], x) else [s[0]] + Without(s[1..], x)
  }

  /** Removing an element commutes with concatenation, so the survivors keep their order. */
  lemma {:induction false} WithoutConcat<T(!new)>(a: seq<T>, b: seq<T>, x: T)
    ensures Without(a + b, x) == Without(a, x) + Without(b, x)
  {
    if |a| > 0 {
      assert (a + b)[1..] == a[1..] + b;
      WithoutConcat(a[1..], b, x);
    } else {
      assert a + b == b;
    }
  }

  /** Removing an element that is absent changes nothing. */
  lemma {:induction false} WithoutAbsent<T(!new)>(s: seq<T>, x: T)
    requires x !in s
    ensures Without(s, x) == s
  {
    if |s| > 0 {
      assert x !in s[1..];
      WithoutAbsent(s[1..], x);
      assert s == [s[0]] + s[1..];
    }
  }

  /** Removing an element never lengthens a sequence. */
  lemma WithoutShorter<T(!new)>(s: seq<T>, x: T)
    ensures |Without(s, x)| <= |s|
  {
    calc {
      |Without(s, x)|;
      == |multiset(Without(s, x))|;
      == |multiset(s)[x := 0]|;
      <= |multiset(s)|;
      == |s|;
    }
  }

  /** No value occurs twice. */
  predicate NoDuplicates<T(==)>(s: seq<T>) {
    forall i, j :: 0 <= i < j < |s| ==> s[i] != s[j]
  }

  // ---------------------------------------------------------------------
  // JavaScript character classes, over Unicode scalar values (`char`)
  // ---------------------------------------------------------------------

  /** The regex class `\s`: ECMAScript WhiteSpace plus LineTerminator. */
  predicate IsJsSpace(c: char) {
    c == '\t' || c == '\n' || c == '\U{B}' || c == '\U{C}' || c == '\r' || c == ' '
    || c == '\U{A0}' || c == '\U{1680}' || ('\U{2000}' <= c <= '\U{200A}')
    || c == '\U{2028}' || c == '\U{2029}' || c == '\U{202F}' || c == '\U{205F}'
    || c == '\U{3000}' || c == '\U{FEFF}'
  }

  /** The characters that the regex `.` does not match. */
  predicate IsLineTerminator(c: char) {
    c == '\n' || c == '\r' || c == '\U{2028}' || c == '\U{2029}'
  }

  predicate IsDigit(c: char) { '0' <= c <= '9' }
  predicate IsUpper(c: char) { 'A' <= c <= 'Z' }
  predicate IsLower(c: char) { 'a' <= c <= 'z' }
  predicate IsAlnum(c: char) { IsDigit(c) || IsUpper(c) || IsLower(c) }

  /** ASCII lower-casing, as `toLowerCase` does on the ASCII range. */
  function LowerChar(c: char): (r: char)
    ensures IsUpper(c) ==> IsLower(r)
    ensures !IsUpper(c) ==> r == c
  {
    if IsUpper(c) then (c as int + 32) as char else c
  }

  function Lower(s: string): (r: string)
    ensures |r| == |s|
    ensures forall i :: 0 <= i < |s| ==> r[i] == LowerChar(s[i])
  {
    if |s| == 0 then [] else [LowerChar(s[0])] + Lower(s[1..])
  }

  /** Case-insensitive (ASCII) equality. */
  predicate EqualsIgnoreCase(a: string, b: string) {
    Lower(a) == Lower(b)
  }

  /** `String.prototype.trim`: leading and trailing `\s` removed. */
  function TrimStart(s: string): (r: string)
    ensures |r| <= |s| && r == s[|s| - |r|..]
    ensures |r| > 0 ==> !IsJsSpace(r[0])
    ensures forall i :: 0 <= i < |s| - |r| ==> IsJsSpace(s[i])
  {
    if |s| > 0 && IsJsSpace(s[0]) then TrimStart(s[1..]) else s
  }

  function TrimEnd(s: string): (r: string)
    ensures |r| <= |s| && r == s[..|r|]
    ensures |r| > 0 ==> !IsJsSpace(r[|r| - 1])
    ensures forall i :: |r| <= i < |s| ==> IsJsSpace(s[i])
  {
    if |s| > 0 && IsJsSpace(s[|s| - 1]) then TrimEnd(s[..|s| - 1]) else s
  }

  function Trim(s: string): (r: string)
    ensures |r| <= |s|
    ensures |r| > 0 ==> !IsJsSpace(r[0]) && !IsJsSpace(r[|r| - 1])
  {
    TrimEnd(TrimStart(s))
  }

  /** Trimming twice is trimming once. */
  lemma TrimIdempotent(s: string)
    ensures Trim(Trim(s)) == Trim(s)
  {
    var t := Trim(s);
    if |t| > 0 {
      assert TrimStart(t) == t;
      assert TrimEnd(t) == t;
    }
  }
}
