/** Where the SDP body of a rendered message is found, and for which content types. */
module SdpBodies {
  import opened Text
  import opened StrLib
  import opened HeaderList
  import opened Sip

  const EMPTY_LINE := "\r\n\r\n"

  // ---- the content types ----

  /** The small letter, or the capital of it. */
  predicate SameLetter(c: char, small: char) {
    c == small || ('a' <= small <= 'z' && c as int + 32 == small as int)
  }

  predicate NoCapitals(s: string) { forall j :: 0 <= j < |s| ==> !('A' <= s[j] <= 'Z') && s[j] != NUL }

  lemma LowerIs(c: char, small: char)
    requires !('A' <= small <= 'Z')
    ensures Lower(c) == Lower(small) <==> SameLetter(c, small)
  {
  }

  /** `s` is the beginning of `lit`, ignoring case. */
  predicate Begins(s: string, lit: string) {
    |s| <= |lit| && forall j :: 0 <= j < |s| ==> SameLetter(s[j], lit[j])
  }

  lemma {:induction false} CaseEqualMeans(s: string, lit: string, n: nat)
    requires n <= |s| && NUL !in s[..n] && NoCapitals(lit)
    ensures CaseEqual(s, lit, n) <==> Begins(s[..n], lit)
  {
    if n > 0 && lit != "" {
      LowerIs(s[0], lit[0]);
      assert s[0] == s[..n][0];
      assert s[1..][..n - 1] == s[..n][1..];
      CaseEqualMeans(s[1..], lit[1..], n - 1);
      assert forall j :: 1 <= j < n ==> s[..n][j] == s[1..][..n - 1][j - 1];
      assert forall j :: 1 <= j < |lit| ==> lit[j] == lit[1..][j - 1];
    } else if n > 0 {
      assert s[0] == s[..n][0];
    }
  }

  /** A body is looked for under a content type that is, ignoring case, a beginning of
      `application/sdp`, or that begins like, or is a beginning of, the multipart type. */
  lemma SdpTypesAre(contentType: string)
    requires NUL !in contentType
    ensures MayHoldSdp(contentType) <==>
            contentType != ""
            && (Begins(contentType, "application/sdp")
                || Begins(contentType[..Min(|contentType|, 25)], "multipart/mixed;boundary="))
  {
    var n := |contentType|;
    assert contentType[..n] == contentType;
    CaseEqualMeans(contentType, SDP_TYPE, n);
    CaseEqualMeans(contentType, MULTIPART_TYPE, Min(n, 25));
  }

  /** A parameter behind `application/sdp` hides the body. */
  lemma ParametersHideSdp(more: string)
    requires NUL !in more && more != ""
    ensures MayHoldSdp(SDP_TYPE) && !MayHoldSdp(SDP_TYPE + more)
  {
    SdpTypesAre(SDP_TYPE);
    SdpTypesAre(SDP_TYPE + more);
    assert (SDP_TYPE + more)[0] == 'a';
    assert !Begins((SDP_TYPE + more)[..Min(|SDP_TYPE + more|, 25)], MULTIPART_TYPE);
  }

  // ---- the empty line ----

  /** A pattern that does not begin inside `pre` is found where it is found behind it. */
  lemma SearchBehind(pre: string, rest: string, pat: string)
    requires forall p :: 0 <= p < |pre| ==> !OccursAt(pre + rest, pat, p)
    requires Search(rest, pat, 0) >= 0
    ensures Search(pre + rest, pat, 0) == |pre| + Search(rest, pat, 0)
  {
    var n := |pre|;
    assert (pre + rest)[n..] == rest;
    SearchTail(pre + rest, pat, n);
    SearchIs(pre + rest, pat, 0, Search(pre + rest, pat, n));
  }

  /** Everything behind the start line. */
  function Behind(hs: seq<Header>, body: string): string { CRLF + (Render(hs) + (CRLF + body)) }

  lemma OccursChars(s: string, p: nat)
    ensures OccursAt(s, EMPTY_LINE, p) ==> p + 2 < |s| && s[p] == '\r' && s[p + 2] == '\r'
  {
    if OccursAt(s, EMPTY_LINE, p) {
      assert s[p] == s[p..p + 4][0] && s[p + 2] == s[p..p + 4][2];
    }
  }

  lemma LineHasNoEol(h: Header)
    requires WellFormed(h)
    ensures NoEol(Line(h)) && Line(h) != ""
  {
  }

  lemma NoEmptyLineIn(line: string, rest: string, p: nat)
    requires NoEol(line) && p < |line|
    ensures !OccursAt(line + rest, EMPTY_LINE, p)
  {
    assert (line + rest)[p] == line[p];
    OccursChars(line + rest, p);
  }

  lemma NoEmptyLineBefore(line: string, rest: string, p: nat)
    requires NoEol(line) && line != "" && p < |CRLF + line|
    ensures !OccursAt(CRLF + line + rest, EMPTY_LINE, p)
  {
    var s := CRLF + line + rest;
    if p >= 2 {
      assert s[p] == line[p - 2];
    } else {
      assert s[1] == '\n' && s[2] == line[0];
    }
    OccursChars(s, p);
  }

  /** The first empty line is the one that ends the headers. */
  lemma {:induction false} EmptyLineEndsHeaders(hs: seq<Header>, body: string)
    requires forall h :: h in hs ==> WellFormed(h)
    ensures Search(Behind(hs, body), EMPTY_LINE, 0) == |Render(hs)|
  {
    var s := Behind(hs, body);
    if hs == [] {
      assert s == EMPTY_LINE + body;
      assert s[0..4] == EMPTY_LINE;
      SearchIs(s, EMPTY_LINE, 0, 0);
    } else {
      var line, rest := Line(hs[0]), Behind(hs[1..], body);
      assert Render(hs) == line + CRLF + Render(hs[1..]);
      assert s == CRLF + line + rest;
      EmptyLineEndsHeaders(hs[1..], body);
      LineHasNoEol(hs[0]);
      forall p | 0 <= p < |CRLF + line|
        ensures !OccursAt(CRLF + line + rest, EMPTY_LINE, p)
      {
        NoEmptyLineBefore(line, rest, p);
      }
      SearchBehind(CRLF + line, rest, EMPTY_LINE);
    }
  }

  lemma EmptyLineOfMessage(startLine: string, hs: seq<Header>, body: string)
    requires NoEol(startLine) && forall h :: h in hs ==> WellFormed(h)
    ensures Search(Message(startLine, hs, body), EMPTY_LINE, 0) == |startLine| + |Render(hs)|
  {
    var rest := Behind(hs, body);
    assert Message(startLine, hs, body) == startLine + rest;
    EmptyLineEndsHeaders(hs, body);
    forall p | 0 <= p < |startLine|
      ensures !OccursAt(startLine + rest, EMPTY_LINE, p)
    {
      NoEmptyLineIn(startLine, rest, p);
    }
    SearchBehind(startLine, rest, EMPTY_LINE);
  }

  lemma {:induction false} CStringBehind(pre: string, rest: string)
    requires NUL !in pre
    ensures CString(pre + rest) == pre + CString(rest)
  {
    if pre == "" {
      assert pre + rest == rest;
    } else {
      assert (pre + rest)[1..] == pre[1..] + rest;
      CStringBehind(pre[1..], rest);
    }
  }

  // ---- the body of a message ----

  function Head(startLine: string, hs: seq<Header>): string { startLine + CRLF + Render(hs) + CRLF }

  /** The search stops at a NUL, but not before the empty line when the head has none. */
  lemma BodyFollowsEmptyLine(startLine: string, hs: seq<Header>, body: string)
    requires NoEol(startLine) && forall h :: h in hs ==> WellFormed(h)
    requires NUL !in Head(startLine, hs)
    ensures var data := Message(startLine, hs, body);
            var p := Search(CString(data), EMPTY_LINE, 0);
            0 <= p <= |data| && data[p..] == EMPTY_LINE + body
  {
    MessageIs(startLine, hs, body);
    MessageIs(startLine, hs, CString(body));
    EmptyLineOfMessage(startLine, hs, CString(body));
    HeadEnds(Head(startLine, hs), body, |startLine| + |Render(hs)|);
  }

  lemma MessageIs(startLine: string, hs: seq<Header>, body: string)
    ensures Message(startLine, hs, body) == Head(startLine, hs) + body
  {
  }

  lemma HeadEnds(head: string, body: string, p: nat)
    requires NUL !in head && p + 4 == |head| && Search(head + CString(body), EMPTY_LINE, 0) == p
    ensures Search(CString(head + body), EMPTY_LINE, 0) == p
    ensures (head + body)[p..] == EMPTY_LINE + body
  {
    CStringBehind(head, body);
    assert (head + CString(body))[p..p + 4] == head[p..];
    assert (head + body)[p..] == head[p..] + body;
  }

  /** The content type of a message: under its long name or else its short one. */
  function ContentType(hs: seq<Header>): Option<string> {
    if FirstValue(hs, "Content-Type").Some? then FirstValue(hs, "Content-Type") else FirstValue(hs, "c")
  }

  /** Neither the start line nor a line of the body looks like a header of that name. */
  predicate OnlyInHeaders(startLine: string, body: string, name: string) {
    !OccursAt(startLine, Tag(name), 0) && TagText(body, Tag(name)) == None
  }

  /** A rendered message's body is handed on, with the empty line before it, exactly
      when its content type may hold SDP. */
  lemma SdpBodyIs(startLine: string, hs: seq<Header>, body: string)
    requires NoEol(startLine) && forall h :: h in hs ==> WellFormed(h)
    requires NUL !in Head(startLine, hs)
    requires OnlyInHeaders(startLine, body, "Content-Type") && OnlyInHeaders(startLine, body, "c")
    ensures SdpBody(Message(startLine, hs, body)) ==
            if ContentType(hs).Some? && MayHoldSdp(ContentType(hs).value) then Some(EMPTY_LINE + body) else None
  {
    assert Tag("Content-Type") == "Content-Type:" && Tag("c") == "c:";
    MessageRoundTrip(startLine, hs, body, "Content-Type");
    MessageRoundTrip(startLine, hs, body, "c");
    BodyFollowsEmptyLine(startLine, hs, body);
  }

  // ---- long and short header names ----

  /** A rendered message's header value: under the long name or else under the short one. */
  function ValueUnder(hs: seq<Header>, long: string, short: string): Option<string> {
    if FirstValue(hs, long).Some? then FirstValue(hs, long) else FirstValue(hs, short)
  }

  lemma LongOrShortIs(startLine: string, hs: seq<Header>, body: string, long: string, short: string)
    requires NoEol(startLine) && forall h :: h in hs ==> WellFormed(h)
    requires IsName(long) && IsName(short)
    requires OnlyInHeaders(startLine, body, long) && OnlyInHeaders(startLine, body, short)
    ensures LongOrShort(Message(startLine, hs, body), Tag(long), Tag(short)) == ValueUnder(hs, long, short)
  {
    MessageRoundTrip(startLine, hs, body, long);
    MessageRoundTrip(startLine, hs, body, short);
  }

  /** The Call-ID is the value of the first `Call-ID` header, or else of the first `i`. */
  lemma CallIdIs(startLine: string, hs: seq<Header>, body: string)
    requires NoEol(startLine) && forall h :: h in hs ==> WellFormed(h)
    requires OnlyInHeaders(startLine, body, "Call-ID") && OnlyInHeaders(startLine, body, "i")
    ensures CallId(Message(startLine, hs, body)) == ValueUnder(hs, "Call-ID", "i")
  {
    assert Tag("Call-ID") == "Call-ID:" && Tag("i") == "i:";
    LongOrShortIs(startLine, hs, body, "Call-ID", "i");
  }
}
