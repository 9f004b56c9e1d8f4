/**
 * The two Python string methods the engine applies to state names:
 * `str.upper()` (modelled on ASCII letters) and `str.strip()` with no
 * argument (removing the characters for which `str.isspace()` holds).
 */
module Text {

  /** Python's `str.isspace()` on one character. */
  predicate IsSpace(c: char) {
    var n := c as int;
    || 0x09 <= n <= 0x0D || 0x1C <= n <= 0x20 || n == 0x85 || n == 0xA0 || n == 0x1680
    || 0x2000 <= n <= 0x200A || n == 0x2028 || n == 0x2029 || n == 0x202F || n == 0x205F || n == 0x3000
  }

  predicate IsLower(c: char) {
    'a' <= c <= 'z'
  }

  function UpperChar(c: char): char {
    if IsLower(c) then (c as int - 32) as char else c
  }

  /** `s.upper()`: every lower-case letter replaced by its capital, everything else kept. */
  function Upper(s: string): (r: string)
    ensures |r| == |s|
    ensures forall i :: 0 <= i < |s| ==> !IsLower(r[i])
    ensures forall i :: 0 <= i < |s| && !IsLower(s[i]) ==> r[i] == s[i]
    ensures forall i :: 0 <= i < |s| && IsLower(s[i]) ==> r[i] as int == s[i] as int - 32
  {
    seq(|s|, i requires 0 <= i < |s| => UpperChar(s[i]))
  }

  /** Leading whitespace removed: a suffix of `s`, all that was dropped is whitespace, and it does not start with any. */
  function StripLeft(s: string): (r: string)
    ensures |r| <= |s| && r == s[|s| - |r|..]
    ensures forall i :: 0 <= i < |s| - |r| ==> IsSpace(s[i])
    ensures r == [] || !IsSpace(r[0])
  {
    if s != [] && IsSpace(s[0]) then StripLeft(s[1..]) else s
  }

  /** Trailing whitespace removed: a prefix of `s`, all that was dropped is whitespace, and it does not end with any. */
  function StripRight(s: string): (r: string)
    ensures |r| <= |s| && r == s[..|r|]
    ensures forall i :: |r| <= i < |s| ==> IsSpace(s[i])
    ensures r == [] || !IsSpace(r[|r| - 1])
  {
    if s != [] && IsSpace(s[|s| - 1]) then StripRight(s[..|s| - 1]) else s
  }

  /** A string neither begins nor ends with whitespace. */
  predicate IsTrimmed(s: string) {
    s == [] || (!IsSpace(s[0]) && !IsSpace(s[|s| - 1]))
  }

  /** `s.strip()`: whitespace removed from both ends. */
  function Strip(s: string): (r: string)
    ensures IsTrimmed(r)
  {
    var l := StripLeft(s);
    var r := StripRight(l);
    assert r != [] ==> r[0] == l[0];
    r
  }

  /**
   * Stripping yields the inner slice of `s` starting at `a`, and what it
   * cuts off at either end is whitespace.
   */
  lemma StripIsInnerSlice(s: string) returns (a: nat)
    ensures a + |Strip(s)| <= |s| && Strip(s) == s[a..a + |Strip(s)|]
    ensures forall i :: 0 <= i < a ==> IsSpace(s[i])
    ensures forall i :: a + |Strip(s)| <= i < |s| ==> IsSpace(s[i])
  {
    var l := StripLeft(s);
    var r := StripRight(l);
    a := |s| - |l|;
    assert l == s[a..];
    assert r == l[..|r|];
    assert r == s[a..a + |r|];
    forall i | a + |r| <= i < |s| ensures IsSpace(s[i]) {
      assert s[i] == l[i - a];
    }
  }

  /** Stripping yields the empty string exactly for all-whitespace input. */
  lemma StripEmpty(s: string)
    ensures Strip(s) == [] <==> forall i :: 0 <= i < |s| ==> IsSpace(s[i])
  {
    var l := StripLeft(s);
    if l != [] {
      assert l[0] == s[|s| - |l|];
    }
  }

  /** Stripping leaves a trimmed string as it is. */
  lemma StripTrimmed(s: string)
    requires IsTrimmed(s)
    ensures Strip(s) == s
  {
  }

  /** A state name as the engine stores it: upper-cased, then stripped. */
  function NormalizeState(s: string): string {
    Strip(Upper(s))
  }

  /** A stored state name: no lower-case letter and no surrounding whitespace. */
  predicate IsNormalizedState(s: string) {
    IsTrimmed(s) && forall i :: 0 <= i < |s| ==> !IsLower(s[i])
  }

  /** Every normalized state name is in stored form. */
  lemma NormalizeStateIsNormalized(s: string)
    ensures IsNormalizedState(NormalizeState(s))
  {
    var u := Upper(s);
    var a := StripIsInnerSlice(u);
    var r := Strip(u);
    forall i | 0 <= i < |r| ensures !IsLower(r[i]) {
      assert r[i] == u[a + i];
    }
  }

  /** Normalizing a state name twice is normalizing it once. */
  lemma NormalizeStateIdempotent(s: string)
    ensures NormalizeState(NormalizeState(s)) == NormalizeState(s)
  {
    var n := NormalizeState(s);
    NormalizeStateIsNormalized(s);
    assert Upper(n) == n;
    StripTrimmed(n);
  }

  /** A name normalizes to itself exactly when upper-casing it already gives a trimmed string. */
  lemma NormalizeStateFixedPoint(s: string)
    ensures NormalizeState(s) == Upper(s) <==> IsTrimmed(Upper(s))
  {
    var u := Upper(s);
    if IsTrimmed(u) {
      StripTrimmed(u);
    }
  }
}
