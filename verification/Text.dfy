/** Text as the program sees it: runs of bytes (written here as characters),
    C strings that stop at the first NUL, and the first-occurrence search that
    every scanner of the program is built on. */
module Text {

  const NUL := '\0'

  datatype Option<+T> = None | Some(value: T)

  function Min(x: nat, y: nat): nat { if x < y then x else y }

  /** A zeroed character array. */
  function Nuls(n: nat): (r: string)
    ensures |r| == n
    ensures forall k :: 0 <= k < n ==> r[k] == NUL
  {
    seq(n, _ => NUL)
  }

  /** `pat` stands in `s` at position `p`. */
  predicate OccursAt(s: string, pat: string, p: int) {
    0 <= p && p + |pat| <= |s| && s[p..p + |pat|] == pat
  }

  /** The least position at or after `from` where `pat` stands in `s`, or -1. */
  function Search(s: string, pat: string, from: nat): (r: int)
    ensures -1 <= r
    ensures r == -1 ==> forall p :: from <= p ==> !OccursAt(s, pat, p)
    ensures r >= 0 ==> from <= r && OccursAt(s, pat, r)
    ensures r >= 0 ==> forall p :: from <= p < r ==> !OccursAt(s, pat, p)
    decreases |s| - from
  {
    if from + |pat| > |s| then -1
    else if OccursAt(s, pat, from) then from
    else Search(s, pat, from + 1)
  }

  /** A first occurrence is what Search returns. */
  lemma SearchIs(s: string, pat: string, from: nat, r: nat)
    requires from <= r && OccursAt(s, pat, r)
    requires forall p :: from <= p < r ==> !OccursAt(s, pat, p)
    ensures Search(s, pat, from) == r
  {
  }

  /** Searching a tail of the buffer is searching the buffer from there on. */
  lemma SearchTail(s: string, pat: string, from: nat)
    requires from <= |s|
    ensures Search(s[from..], pat, 0) >= 0 <==> Search(s, pat, from) >= 0
    ensures Search(s, pat, from) >= 0 ==> Search(s, pat, from) == from + Search(s[from..], pat, 0)
  {
    var t := s[from..];
    forall p: nat
      ensures OccursAt(t, pat, p) == OccursAt(s, pat, from + p)
    {
      if p + |pat| <= |t| {
        assert t[p..p + |pat|] == s[from + p..from + p + |pat|];
      }
    }
    assert forall p :: from <= p ==> OccursAt(s, pat, p) == OccursAt(t, pat, p - from);
    var q := Search(t, pat, 0);
    if q >= 0 {
      SearchIs(s, pat, from, from + q);
    }
  }

  /** The fallback `memmem`: advance one byte at a time, counting the remaining
      starting positions down to zero. */
  method Memmem(haystack: string, needle: string) returns (r: int)
    ensures r == Search(haystack, needle, 0)
  {
    if |needle| > |haystack| {
      return -1;
    }
    var p := 0;
    var i := |haystack| - |needle| + 1;
    while i != 0
      invariant 0 <= i
      invariant p + i == |haystack| - |needle| + 1
      invariant forall q :: 0 <= q < p ==> !OccursAt(haystack, needle, q)
    {
      if haystack[p..p + |needle|] == needle {
        SearchIs(haystack, needle, 0, p);
        return p;
      }
      p := p + 1;
      i := i - 1;
    }
    return -1;
  }

  /** `memmem` from a pointer into the buffer to the buffer's end. */
  method MemmemFrom(buf: string, needle: string, from: nat) returns (r: int)
    requires from <= |buf|
    ensures r == Search(buf, needle, from)
  {
    r := Memmem(buf[from..], needle);
    SearchTail(buf, needle, from);
    r := if r < 0 then r else from + r;
  }

  /** The C string that starts at the head of `s`: everything before the first NUL. */
  function CString(s: string): (r: string)
    ensures |r| <= |s| && r == s[..|r|]
    ensures NUL !in r
    ensures |r| < |s| ==> s[|r|] == NUL
  {
    if s == "" || s[0] == NUL then "" else [s[0]] + CString(s[1..])
  }

  /** A C string written into a buffer reads back as itself. */
  lemma {:induction false} CStringOfTerminated(s: string, rest: string)
    requires NUL !in s
    ensures CString(s + [NUL] + rest) == s
  {
    if s == "" {
      assert s + [NUL] + rest == [NUL] + rest;
    } else {
      CStringOfTerminated(s[1..], rest);
      assert (s + [NUL] + rest)[1..] == s[1..] + [NUL] + rest;
      assert s == [s[0]] + s[1..];
    }
  }
}
