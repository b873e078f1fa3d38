/** The header scanner `gettag` and the telephone-event scanner built on it. */
module StrLib {
  import opened Text

  predicate IsEol(c: char) { c == '\r' || c == '\n' }

  /** Position `q` begins a line: it is the buffer start or follows a CR or LF. */
  predicate LineStart(buf: string, q: nat) {
    q <= |buf| && (q == 0 || IsEol(buf[q - 1]))
  }

  /** The first position at or after `p` that is not a space. */
  function SkipSpaces(buf: string, p: nat): (r: nat)
    requires p <= |buf|
    ensures p <= r <= |buf|
    ensures forall j :: p <= j < r ==> buf[j] == ' '
    ensures r < |buf| ==> buf[r] != ' '
    decreases |buf| - p
  {
    if p < |buf| && buf[p] == ' ' then SkipSpaces(buf, p + 1) else p
  }

  /** The first CR or LF at or after `p`, or the buffer end. */
  function LineEnd(buf: string, p: nat): (r: nat)
    requires p <= |buf|
    ensures p <= r <= |buf|
    ensures forall j :: p <= j < r ==> !IsEol(buf[j])
    ensures r < |buf| ==> IsEol(buf[r])
    decreases |buf| - p
  {
    if p < |buf| && !IsEol(buf[p]) then LineEnd(buf, p + 1) else p
  }

  /** A usable header: the tag stands at a line start and its value is terminated. */
  predicate Usable(buf: string, tag: string, q: nat) {
    && OccursAt(buf, tag, q)
    && LineStart(buf, q)
    && LineEnd(buf, SkipSpaces(buf, q + |tag|)) < |buf|
  }

  /** The least usable position at or after `from`, or -1. */
  function FirstUsable(buf: string, tag: string, from: nat): (r: int)
    ensures -1 <= r
    ensures r >= 0 ==> from <= r && Usable(buf, tag, r)
    decreases |buf| - from
  {
    if from > |buf| then -1
    else if Usable(buf, tag, from) then from
    else FirstUsable(buf, tag, from + 1)
  }

  /** It is the least one: there is none before it, and none at all if it is -1. */
  lemma {:induction false} FirstUsableIsLeast(buf: string, tag: string, from: nat)
    ensures var r := FirstUsable(buf, tag, from);
            forall q: nat :: from <= q && (r < 0 || q < r) ==> !Usable(buf, tag, q)
    decreases |buf| - from
  {
    if from <= |buf| && !Usable(buf, tag, from) {
      FirstUsableIsLeast(buf, tag, from + 1);
    }
  }

  /** What `gettag` returns: a NULL pointer, or an offset and a length. */
  datatype Value = NoValue | Value(start: nat, len: nat)

  /** The value after the least usable occurrence of the tag. */
  function TagValue(buf: string, tag: string): (v: Value)
    ensures v.Value? ==> v.start + v.len < |buf|
  {
    var q := FirstUsable(buf, tag, 0);
    if q < 0 then NoValue
    else
      var start := SkipSpaces(buf, q + |tag|);
      Value(start, LineEnd(buf, start) - start)
  }

  /** The value text after position `p`. */
  function ValueFrom(buf: string, p: nat): string
    requires p <= |buf|
  {
    buf[SkipSpaces(buf, p)..LineEnd(buf, SkipSpaces(buf, p))]
  }

  /** The text after the least usable occurrence of the tag at or after `from`. */
  function TextFrom(buf: string, tag: string, from: nat): Option<string>
    decreases |buf| - from
  {
    if from > |buf| then None
    else if Usable(buf, tag, from) then Some(ValueFrom(buf, from + |tag|))
    else TextFrom(buf, tag, from + 1)
  }

  function TagText(buf: string, tag: string): Option<string> { TextFrom(buf, tag, 0) }

  lemma {:induction false} TextFromFirst(buf: string, tag: string, from: nat)
    ensures var q := FirstUsable(buf, tag, from);
            TextFrom(buf, tag, from) == if q < 0 then None else TextFrom(buf, tag, q)
    decreases |buf| - from
  {
    if from <= |buf| && !Usable(buf, tag, from) {
      TextFromFirst(buf, tag, from + 1);
    }
  }

  /** It is the text that the offset and the length describe. */
  lemma TextOfValue(buf: string, tag: string)
    ensures TagText(buf, tag) ==
            if TagValue(buf, tag).NoValue? then None
            else Some(buf[TagValue(buf, tag).start..TagValue(buf, tag).start + TagValue(buf, tag).len])
  {
    TextFromFirst(buf, tag, 0);
  }

  /** No header is usable at any position in `[0, end)`. */
  ghost predicate NoneBefore(buf: string, tag: string, end: nat) {
    forall q: nat :: q < end ==> !Usable(buf, tag, q)
  }

  /** The first usable header decides the result. */
  lemma FirstDecides(buf: string, tag: string, q: nat)
    requires NoneBefore(buf, tag, q) && Usable(buf, tag, q)
    ensures var start := SkipSpaces(buf, q + |tag|);
            TagValue(buf, tag) == Value(start, LineEnd(buf, start) - start)
  {
    var r := FirstUsable(buf, tag, 0);
    FirstUsableIsLeast(buf, tag, 0);
    assert r == q;
  }

  lemma ValueFound(buf: string, tag: string, q: nat, start: nat, lp: nat)
    requires NoneBefore(buf, tag, q) && OccursAt(buf, tag, q) && LineStart(buf, q)
    requires start == SkipSpaces(buf, q + |tag|) && lp == LineEnd(buf, start) < |buf|
    ensures TagValue(buf, tag) == Value(start, lp - start)
  {
    FirstDecides(buf, tag, q);
  }

  /** A header needs room for its tag and its line terminator. */
  lemma NoneAtEnd(buf: string, tag: string)
    requires tag != ""
    requires NoneBefore(buf, tag, |buf|) || |buf| <= 1
    ensures TagValue(buf, tag) == NoValue
  {
    var q := FirstUsable(buf, tag, 0);
    assert q >= 0 ==> q < q + |tag| < |buf|;
  }

  /** The search skips only positions where the tag does not stand. */
  lemma SearchLosesNothing(buf: string, tag: string, from: nat)
    requires from <= |buf| && NoneBefore(buf, tag, from)
    ensures Search(buf, tag, from) < 0 ==> NoneBefore(buf, tag, |buf|)
    ensures Search(buf, tag, from) >= 0 ==> NoneBefore(buf, tag, Search(buf, tag, from))
  {
  }

  /** A match inside a line is no header. */
  lemma NotAtLineStart(buf: string, tag: string, q: nat)
    requires NoneBefore(buf, tag, q) && !LineStart(buf, q)
    ensures NoneBefore(buf, tag, q + 1)
  {
  }

  /** After a match whose line is unterminated, no later match is usable: the
      scanner may jump over the tag and its spaces without losing a header. */
  lemma UnterminatedEndsSearch(buf: string, tag: string, q: nat)
    requires NoneBefore(buf, tag, q)
    requires OccursAt(buf, tag, q)
    requires LineEnd(buf, SkipSpaces(buf, q + |tag|)) == |buf|
    ensures NoneBefore(buf, tag, |buf|)
  {
    forall later: nat | q <= later
      ensures !Usable(buf, tag, later)
    {
    }
  }

  /** The two inner loops: the value after `p` and the end of its line. */
  method ValueSpan(buf: string, p: nat) returns (r: nat, lp: nat)
    requires p <= |buf|
    ensures r == SkipSpaces(buf, p) && lp == LineEnd(buf, r)
  {
    r := p;
    while r < |buf| && buf[r] == ' '
      invariant p <= r <= |buf|
      invariant SkipSpaces(buf, r) == SkipSpaces(buf, p)
    {
      r := r + 1;
    }
    lp := r;
    while lp < |buf| && !(buf[lp] == '\r' || buf[lp] == '\n')
      invariant r <= lp <= |buf|
      invariant LineEnd(buf, lp) == LineEnd(buf, r)
    {
      lp := lp + 1;
    }
  }

  /** The scanner itself. `start == -1` is the NULL result. The tag must not be
      empty: the search would not advance past an empty match. */
  method GetTag(buf: string, tag: string) returns (start: int, len: nat)
    requires tag != ""
    ensures TagValue(buf, tag) == if start < 0 then NoValue else Value(start, len)
    ensures start < 0 ==> start == -1 && len == 0
  {
    if |buf| > 1 {
      var r := 0;
      while r < |buf|
        invariant 0 <= r <= |buf|
        invariant NoneBefore(buf, tag, r)
        decreases |buf| - r
      {
        var hit := MemmemFrom(buf, tag, r);
        SearchLosesNothing(buf, tag, r);
        if hit < 0 {
          r := |buf|;
          break;
        }
        r := hit;
        if r == 0 || buf[r - 1] == '\r' || buf[r - 1] == '\n' {
          var value, lp := ValueSpan(buf, r + |tag|);
          if lp < |buf| {
            ValueFound(buf, tag, r, value, lp);
            return value, lp - value;
          }
          UnterminatedEndsSearch(buf, tag, r);
          r := value;
        } else {
          NotAtLineStart(buf, tag, r);
          r := r + 1;
        }
      }
    }
    NoneAtEnd(buf, tag);
    return -1, 0;
  }

  /** The result in the caller's terms: NULL exactly when no line begins with the
      tag and ends; otherwise the text after the first such tag and its spaces,
      up to the line's CR or LF. */
  lemma TagValueExact(buf: string, tag: string)
    ensures TagValue(buf, tag) == NoValue <==> forall q: nat :: !Usable(buf, tag, q)
    ensures TagValue(buf, tag).Value? ==>
              var v := TagValue(buf, tag);
              && IsEol(buf[v.start + v.len])
              && (forall j :: v.start <= j < v.start + v.len ==> !IsEol(buf[j]))
              && buf[v.start] != ' '
              && exists q: nat ::
                   && LineStart(buf, q) && OccursAt(buf, tag, q) && NoneBefore(buf, tag, q)
                   && q + |tag| <= v.start
                   && forall j :: q + |tag| <= j < v.start ==> buf[j] == ' '
  {
    var q := FirstUsable(buf, tag, 0);
    FirstUsableIsLeast(buf, tag, 0);
    if q >= 0 {
      assert LineStart(buf, q) && OccursAt(buf, tag, q) && NoneBefore(buf, tag, q);
    }
  }

  predicate IsCrLf(c: char) { c == '\r' || c == '\n' }

  /** A usable header, byte by byte: the tag stands at the buffer's start or behind a CR
      or LF, and a CR or LF comes somewhere behind it. */
  lemma UsableIs(buf: string, tag: string, q: nat)
    ensures Usable(buf, tag, q) <==>
            && q + |tag| <= |buf| && buf[q..q + |tag|] == tag
            && (q == 0 || IsCrLf(buf[q - 1]))
            && exists e :: q + |tag| <= e < |buf| && IsCrLf(buf[e])
  {
    if q + |tag| <= |buf| {
      var start := SkipSpaces(buf, q + |tag|);
      var end := LineEnd(buf, start);
      if exists e :: q + |tag| <= e < |buf| && IsCrLf(buf[e]) {
        var e :| q + |tag| <= e < |buf| && IsCrLf(buf[e]);
        assert start <= e && end <= e;
      }
      if end < |buf| {
        assert IsCrLf(buf[end]);
      }
    }
  }

  // ---- the telephone-event payload type ----

  const TELEPHONE_EVENT := " telephone-event/"
  const RTPMAP := "a=rtpmap:"

  predicate IsDigit(c: char) { '0' <= c <= '9' }

  function DigitOf(c: char): nat
    requires IsDigit(c)
  {
    c as int - '0' as int
  }

  predicate IsSpace(c: char) { c == ' ' || '\t' <= c <= '\r' }

  /** The decimal digits at `p`, accumulated from the left. */
  function ParseDigits(s: string, p: nat, acc: nat): nat
    decreases |s| - p
  {
    if p < |s| && IsDigit(s[p]) then ParseDigits(s, p + 1, 10 * acc + DigitOf(s[p])) else acc
  }

  const LONG_MAX := 0x7fff_ffff_ffff_ffff

  /** The nearest number of type `long`. */
  function Clamp(n: int): int {
    if n > LONG_MAX then LONG_MAX else if n < -LONG_MAX - 1 then -LONG_MAX - 1 else n
  }

  /** The C library's `atol`: white space, an optional sign, digits. */
  function Atol(s: string, p: nat): int
    decreases |s| - p
  {
    if p >= |s| then 0
    else if IsSpace(s[p]) then Atol(s, p + 1)
    else if s[p] == '-' then Clamp(0 - ParseDigits(s, p + 1, 0))
    else if s[p] == '+' then Clamp(ParseDigits(s, p + 1, 0))
    else Clamp(ParseDigits(s, p, 0))
  }

  /** The text ` telephone-event/` stands one, two or three characters after `s`. */
  predicate NamesTelephoneEvent(sdp: string, s: nat) {
    || OccursAt(sdp, TELEPHONE_EVENT, s + 1)
    || OccursAt(sdp, TELEPHONE_EVENT, s + 2)
    || OccursAt(sdp, TELEPHONE_EVENT, s + 3)
  }

  /** The payload type named by the first `a=rtpmap:` line, or 0. */
  function RtpmapEvent(sdp: string): (event: nat)
    ensures event <= 255
  {
    match TagValue(sdp, RTPMAP)
    case NoValue => 0
    case Value(s, _) =>
      var l := Atol(sdp, s) % 0x1_0000_0000_0000_0000;
      if NamesTelephoneEvent(sdp, s) && l <= 255 then l else 0
  }

  method SdpGetRtpmapEvent(sdp: string) returns (event: nat)
    ensures event == RtpmapEvent(sdp)
  {
    var s, l := GetTag(sdp, RTPMAP);
    if s >= 0 && NamesTelephoneEvent(sdp, s) {
      l := Atol(sdp, s) % 0x1_0000_0000_0000_0000;
      if l <= 255 {
        return l;
      }
    }
    return 0;
  }

  /** `n` written in decimal, without leading zeros. */
  function Decimal(n: nat): (r: string)
    ensures r != "" && forall j :: 0 <= j < |r| ==> IsDigit(r[j])
    ensures |r| == 1 <==> n < 10
    ensures |r| == 2 <==> 10 <= n < 100
    ensures |r| == 3 <==> 100 <= n < 1000
  {
    if n < 10 then [('0' as int + n) as char] else Decimal(n / 10) + [('0' as int + n % 10) as char]
  }

  /** The number that a run of digits adds to what was read before. */
  function Number(d: string, acc: nat): nat
    requires forall j :: 0 <= j < |d| ==> IsDigit(d[j])
  {
    if d == "" then acc else Number(d[1..], 10 * acc + DigitOf(d[0]))
  }

  lemma {:induction false} NumberOneMore(d: string, c: char, acc: nat)
    requires IsDigit(c) && forall j :: 0 <= j < |d| ==> IsDigit(d[j])
    ensures Number(d + [c], acc) == 10 * Number(d, acc) + DigitOf(c)
    decreases |d|
  {
    if d == "" {
      assert d + [c] == [c] && [c][1..] == "";
    } else {
      assert (d + [c])[1..] == d[1..] + [c];
      NumberOneMore(d[1..], c, 10 * acc + DigitOf(d[0]));
    }
  }

  lemma {:induction false} NumberOfDecimal(n: nat)
    ensures Number(Decimal(n), 0) == n
  {
    if n < 10 {
      assert Decimal(n)[1..] == "";
    } else {
      NumberOfDecimal(n / 10);
      NumberOneMore(Decimal(n / 10), ('0' as int + n % 10) as char, 0);
    }
  }

  /** The digits at `p`, followed by something else, are read as their number. */
  lemma {:induction false} ParseReadsNumber(s: string, p: nat, d: string, acc: nat)
    requires p + |d| < |s| && !IsDigit(s[p + |d|])
    requires forall j :: 0 <= j < |d| ==> IsDigit(d[j]) && s[p + j] == d[j]
    ensures ParseDigits(s, p, acc) == Number(d, acc)
    decreases |d|
  {
    if d != "" {
      assert s[p + 0] == d[0];
      forall j | 0 <= j < |d[1..]|
        ensures s[p + 1 + j] == d[1..][j]
      {
        assert s[p + (j + 1)] == d[j + 1];
      }
      ParseReadsNumber(s, p + 1, d[1..], 10 * acc + DigitOf(d[0]));
    }
  }

  /** Reading back a decimal number that is followed by a space: the number, or the
      largest one there is. */
  lemma AtolOfDecimal(s: string, p: nat, n: nat)
    requires OccursAt(s, Decimal(n), p) && p + |Decimal(n)| < |s| && s[p + |Decimal(n)|] == ' '
    ensures Atol(s, p) == if n <= LONG_MAX then n else LONG_MAX
  {
    var d := Decimal(n);
    forall j | 0 <= j < |d|
      ensures s[p + j] == d[j]
    {
      assert s[p..p + |d|][j] == d[j];
    }
    assert s[p + 0] == d[0];
    ParseReadsNumber(s, p, d, 0);
    NumberOfDecimal(n);
  }

  /** The same behind a sign. */
  lemma AtolOfSigned(s: string, p: nat, n: nat)
    requires p < |s| && OccursAt(s, Decimal(n), p + 1)
    requires p + 1 + |Decimal(n)| < |s| && s[p + 1 + |Decimal(n)|] == ' '
    ensures s[p] == '-' ==> Atol(s, p) == Clamp(0 - n)
    ensures s[p] == '+' ==> Atol(s, p) == Clamp(n)
  {
    var d := Decimal(n);
    forall j | 0 <= j < |d|
      ensures s[p + 1 + j] == d[j]
    {
      assert s[p + 1..p + 1 + |d|][j] == d[j];
    }
    ParseReadsNumber(s, p + 1, d, 0);
    NumberOfDecimal(n);
  }

  /** The parts of a concatenation stand at their own offsets. */
  lemma OccursParts(s: string, a: string, b: string, p: nat)
    requires OccursAt(s, a + b, p)
    ensures OccursAt(s, a, p) && OccursAt(s, b, p + |a|)
  {
    var ab := s[p..p + |a| + |b|];
    assert s[p..p + |a|] == ab[..|a|] == a;
    assert s[p + |a|..p + |a| + |b|] == ab[|a|..] == b;
  }

  function RtpmapLine(n: nat): string { RTPMAP + (Decimal(n) + TELEPHONE_EVENT) }

  /** A number too long for the three probed offsets is followed by more digits there. */
  lemma LongNumberUnmatched(sdp: string, s: nat, n: nat)
    requires OccursAt(sdp, Decimal(n), s) && n >= 1000
    ensures !NamesTelephoneEvent(sdp, s)
  {
    var d := Decimal(n);
    assert sdp[s + 1] == d[1] && sdp[s + 2] == d[2] && sdp[s + 3] == d[3];
    assert TELEPHONE_EVENT[0] == ' ';
  }

  lemma RtpmapParts(sdp: string, q: nat, n: nat)
    requires OccursAt(sdp, RtpmapLine(n), q)
    ensures OccursAt(sdp, RTPMAP, q) && OccursAt(sdp, Decimal(n), q + |RTPMAP|)
    ensures OccursAt(sdp, TELEPHONE_EVENT, q + |RTPMAP| + |Decimal(n)|)
  {
    OccursParts(sdp, RTPMAP, Decimal(n) + TELEPHONE_EVENT, q);
    OccursParts(sdp, Decimal(n), TELEPHONE_EVENT, q + |RTPMAP|);
  }

  lemma DigitStops(sdp: string, s: nat, n: nat)
    requires OccursAt(sdp, Decimal(n), s)
    ensures SkipSpaces(sdp, s) == s
  {
    assert sdp[s] == Decimal(n)[0];
  }

  /** The number is found at the value's start, and recognised when it is short. */
  lemma RtpmapValueStart(sdp: string, q: nat, n: nat, eol: nat)
    requires NoneBefore(sdp, RTPMAP, q) && LineStart(sdp, q)
    requires OccursAt(sdp, RTPMAP, q) && OccursAt(sdp, Decimal(n), q + |RTPMAP|)
    requires q + |RTPMAP| <= eol < |sdp| && IsEol(sdp[eol])
    ensures TagValue(sdp, RTPMAP).Value? && TagValue(sdp, RTPMAP).start == q + |RTPMAP|
  {
    DigitStops(sdp, q + |RTPMAP|, n);
    FirstDecides(sdp, RTPMAP, q);
  }

  lemma ShortNumberRead(sdp: string, s: nat, n: nat)
    requires n < 1000
    requires OccursAt(sdp, Decimal(n), s) && OccursAt(sdp, TELEPHONE_EVENT, s + |Decimal(n)|)
    ensures Atol(sdp, s) == n && NamesTelephoneEvent(sdp, s)
  {
    var e := s + |Decimal(n)|;
    assert sdp[e] == TELEPHONE_EVENT[0];
    AtolOfDecimal(sdp, s, n);
  }

  lemma EventFromValue(sdp: string, s: nat, n: nat)
    requires TagValue(sdp, RTPMAP).Value? && TagValue(sdp, RTPMAP).start == s
    requires if n < 1000 then Atol(sdp, s) == n && NamesTelephoneEvent(sdp, s) else !NamesTelephoneEvent(sdp, s)
    ensures RtpmapEvent(sdp) == if n <= 255 then n else 0
  {
  }

  /** In any surrounding text whose first `a=rtpmap:` line is a terminated
      `a=rtpmap:n telephone-event/...`, the payload type read is `n`; a number that
      does not fit the 8-bit result reads as 0. */
  lemma RtpmapRoundTrip(sdp: string, q: nat, n: nat, eol: nat)
    requires NoneBefore(sdp, RTPMAP, q) && LineStart(sdp, q)
    requires OccursAt(sdp, RtpmapLine(n), q)
    requires q + |RtpmapLine(n)| <= eol < |sdp| && IsEol(sdp[eol])
    ensures RtpmapEvent(sdp) == if n <= 255 then n else 0
  {
    var s := q + |RTPMAP|;
    RtpmapParts(sdp, q, n);
    RtpmapValueStart(sdp, q, n, eol);
    if n < 1000 {
      ShortNumberRead(sdp, s, n);
    } else {
      LongNumberUnmatched(sdp, s, n);
    }
    EventFromValue(sdp, s, n);
  }
}
