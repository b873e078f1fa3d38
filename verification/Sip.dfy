/** What the packet loop reads out of a UDP payload that may be SIP. */
module Sip {
  import opened Text
  import opened StrLib
  import opened PeerName

  /** The loop looks at fixed offsets below this one without a length check. */
  const LEAST_PAYLOAD := 12
  const NAME_SIZE := 256
  const METHOD_SIZE := 9
  const VERSION := "SIP/2.0 "

  type Payload = s: string | |s| >= LEAST_PAYLOAD witness Nuls(LEAST_PAYLOAD)

  /** The first space or NUL. */
  function TokenEnd(s: string): (r: nat)
    ensures r <= |s|
    ensures r < |s| ==> s[r] == ' ' || s[r] == NUL
  {
    if s == "" || s[0] == ' ' || s[0] == NUL then 0 else 1 + TokenEnd(s[1..])
  }

  lemma {:induction false} TokenEndIs(s: string, n: nat)
    requires n < |s| && (s[n] == ' ' || s[n] == NUL)
    requires forall j :: 0 <= j < n ==> s[j] != ' ' && s[j] != NUL
    ensures TokenEnd(s) == n
  {
    if n > 0 {
      TokenEndIs(s[1..], n - 1);
    }
  }

  /** The request method: the leading token of at most nine characters, all upper case. */
  function Method(data: Payload): Option<string> {
    var word := data[..METHOD_SIZE] + " ";
    var n := TokenEnd(word);
    if n < |word| && word[n] == ' ' && forall j :: 0 <= j < n ==> 'A' <= word[j] <= 'Z'
    then Some(word[..n]) else None
  }

  function MethodName(data: Payload): string {
    match Method(data)
    case None => ""
    case Some(m) => m
  }

  predicate IsSip(data: Payload) {
    Method(data).Some? || data[..|VERSION|] == VERSION
  }

  /** The value of a header, under its long name or else under its short one. */
  function LongOrShort(data: string, long: string, short: string): Option<string> {
    if TagText(data, long).Some? then TagText(data, long) else TagText(data, short)
  }

  function CallId(data: string): Option<string> { LongOrShort(data, "Call-ID:", "i:") }

  /** The 256-byte name buffer after trying the long header name and, if that fails,
      the short one. The second attempt writes over what the first one left. */
  function NameBuffer(data: string, long: string, short: string): (buf: string)
    ensures |buf| >= NAME_SIZE
  {
    var first := Overwrite(Nuls(NAME_SIZE), PeerText(data, long));
    if PeerUser(ValueOf(data, long)).Some? then first else Overwrite(first, PeerText(data, short))
  }

  function Lower(c: char): char {
    if 'A' <= c <= 'Z' then (c as int + 32) as char else c
  }

  /** `strncasecmp(s, lit, n) == 0` for a NUL-terminated `lit`. */
  predicate CaseEqual(s: string, lit: string, n: nat)
    requires n <= |s|
  {
    n == 0 ||
    (var c := if lit == "" then NUL else Lower(lit[0]);
     Lower(s[0]) == c && (c == NUL || CaseEqual(s[1..], lit[1..], n - 1)))
  }

  const SDP_TYPE := "application/sdp"
  const MULTIPART_TYPE := "multipart/mixed;boundary="

  predicate MayHoldSdp(contentType: string) {
    && contentType != ""
    && (|| CaseEqual(contentType, SDP_TYPE, |contentType|)
        || CaseEqual(contentType, MULTIPART_TYPE, Min(|contentType|, 25)))
  }

  /** The message body, from the empty line on, when its type is searched for SDP. */
  function SdpBody(data: string): Option<string> {
    var t := LongOrShort(data, "Content-Type:", "c:");
    var p := Search(CString(data), "\r\n\r\n", 0);
    if t.Some? && MayHoldSdp(t.value) && p >= 0 && p <= |data| then Some(data[p..]) else None
  }

  // ---- the same, as the loop computes it ----

  method FindLongOrShort(data: string, long: string, short: string) returns (v: Option<string>)
    requires long != "" && short != ""
    ensures v == LongOrShort(data, long, short)
  {
    var start, len := GetTag(data, long);
    TextOfValue(data, long);
    if start < 0 {
      start, len := GetTag(data, short);
      TextOfValue(data, short);
    }
    v := if start < 0 then None else Some(data[start..start + len]);
  }

  method ZeroedBuffer(n: nat) returns (a: array<char>)
    ensures fresh(a) && a.Length == n && a[..] == Nuls(n)
  {
    a := new char[n](_ => NUL);
  }

  /** What the name buffer must have room for: the short header is read only when the
      long one fails. */
  predicate NameFits(data: string, long: string, short: string) {
    && |PeerText(data, long)| < NAME_SIZE
    && (PeerUser(ValueOf(data, long)).Some? || |PeerText(data, short)| < NAME_SIZE)
  }

  method ReadName(data: string, long: string, short: string) returns (buf: string)
    requires long != "" && short != ""
    requires NameFits(data, long, short)
    ensures buf == NameBuffer(data, long, short)
  {
    var a := ZeroedBuffer(NAME_SIZE);
    var rc := GetSipPeername(data, long, a);
    if rc != 0 {
      rc := GetSipPeername(data, short, a);
    }
    buf := a[..];
  }

  method FindSdpBody(data: string) returns (body: Option<string>)
    ensures body == SdpBody(data)
  {
    var t := FindLongOrShort(data, "Content-Type:", "c:");
    var p := Memmem(CString(data), "\r\n\r\n");
    body := if t.Some? && MayHoldSdp(t.value) && p >= 0 && p <= |data| then Some(data[p..]) else None;
  }
}
