/** Rendered SIP headers (section 7.3.1 of RFC 3261) and reading them back with
    the header scanner. */
module HeaderList {
  import opened Text
  import opened StrLib

  datatype Header = Header(name: string, pad: nat, value: string)

  const CRLF := "\r\n"

  predicate NoEol(s: string) { forall j :: 0 <= j < |s| ==> !IsEol(s[j]) }

  predicate IsName(name: string) { NoEol(name) && ':' !in name }

  predicate WellFormed(h: Header) {
    IsName(h.name) && NoEol(h.value) && (h.value != "" ==> h.value[0] != ' ')
  }

  function Spaces(n: nat): string { seq(n, _ => ' ') }

  function Tag(name: string): string { name + ":" }

  function Line(h: Header): string { Tag(h.name) + (Spaces(h.pad) + h.value) }

  function Render(hs: seq<Header>): string {
    if hs == [] then "" else Line(hs[0]) + CRLF + Render(hs[1..])
  }

  function FirstValue(hs: seq<Header>, name: string): Option<string> {
    if hs == [] then None
    else if hs[0].name == name then Some(hs[0].value)
    else FirstValue(hs[1..], name)
  }

  // ---- moving the scanner past a prefix of whole lines ----

  lemma {:induction false} SkipSpacesShift(pre: string, rest: string, p: nat)
    requires p <= |rest|
    ensures SkipSpaces(pre + rest, |pre| + p) == |pre| + SkipSpaces(rest, p)
    decreases |rest| - p
  {
    if p < |rest| && rest[p] == ' ' {
      SkipSpacesShift(pre, rest, p + 1);
    }
  }

  lemma {:induction false} LineEndShift(pre: string, rest: string, p: nat)
    requires p <= |rest|
    ensures LineEnd(pre + rest, |pre| + p) == |pre| + LineEnd(rest, p)
    decreases |rest| - p
  {
    if p < |rest| && !IsEol(rest[p]) {
      LineEndShift(pre, rest, p + 1);
    }
  }

  lemma OccursShift(pre: string, rest: string, tag: string, p: nat)
    ensures OccursAt(pre + rest, tag, |pre| + p) == OccursAt(rest, tag, p)
  {
    if p + |tag| <= |rest| {
      assert (pre + rest)[|pre| + p..|pre| + p + |tag|] == rest[p..p + |tag|];
    }
  }

  /** The value that starts after position `p` is the same text in both buffers. */
  lemma ValueShift(pre: string, rest: string, p: nat)
    requires p <= |rest|
    ensures var start := SkipSpaces(rest, p);
            var end := LineEnd(rest, start);
            && SkipSpaces(pre + rest, |pre| + p) == |pre| + start
            && LineEnd(pre + rest, |pre| + start) == |pre| + end
            && ValueFrom(pre + rest, |pre| + p) == ValueFrom(rest, p)
  {
    SkipSpacesShift(pre, rest, p);
    var start := SkipSpaces(rest, p);
    LineEndShift(pre, rest, start);
    assert (pre + rest)[|pre| + start..|pre| + LineEnd(rest, start)] == rest[start..LineEnd(rest, start)];
  }

  lemma SameValue(pre: string, rest: string, p: nat, n: nat)
    requires p + n <= |rest|
    ensures ValueFrom(pre + rest, |pre| + p + n) == ValueFrom(rest, p + n)
  {
    ValueShift(pre, rest, p + n);
    assert |pre| + p + n == |pre| + (p + n);
  }

  lemma UsableShift(pre: string, rest: string, tag: string, p: nat)
    requires pre != "" && IsEol(pre[|pre| - 1])
    ensures Usable(pre + rest, tag, |pre| + p) == Usable(rest, tag, p)
  {
    OccursShift(pre, rest, tag, p);
    if OccursAt(rest, tag, p) {
      assert p > 0 ==> (pre + rest)[|pre| + p - 1] == rest[p - 1];
      ValueShift(pre, rest, p + |tag|);
    }
  }

  /** Behind a prefix of whole lines the scan finds what it finds without it. */
  lemma {:induction false} TextShift(pre: string, rest: string, tag: string, from: nat)
    requires pre != "" && IsEol(pre[|pre| - 1])
    ensures TextFrom(pre + rest, tag, |pre| + from) == TextFrom(rest, tag, from)
    decreases |rest| - from
  {
    if from <= |rest| {
      UsableShift(pre, rest, tag, from);
      if Usable(rest, tag, from) {
        SameValue(pre, rest, from, |tag|);
      } else {
        TextShift(pre, rest, tag, from + 1);
      }
    }
  }

  /** Positions without a usable header can be skipped. */
  lemma {:induction false} SkipTo(buf: string, tag: string, from: nat, n: nat)
    requires from <= n <= |buf| && NoneBefore(buf, tag, n)
    ensures TextFrom(buf, tag, from) == TextFrom(buf, tag, n)
    decreases n - from
  {
    if from < n {
      SkipTo(buf, tag, from + 1, n);
    }
  }

  /** A prefix of whole lines that holds no usable header is invisible. */
  lemma SkipPrefix(pre: string, rest: string, tag: string)
    requires pre != "" && IsEol(pre[|pre| - 1])
    requires NoneBefore(pre + rest, tag, |pre|)
    ensures TagText(pre + rest, tag) == TagText(rest, tag)
  {
    SkipTo(pre + rest, tag, 0, |pre|);
    TextShift(pre, rest, tag, 0);
  }

  /** A line that does not begin with the tag is skipped. */
  lemma SkipLine(line: string, rest: string, tag: string)
    requires NoEol(line) && NoEol(tag) && tag != "" && !OccursAt(line, tag, 0)
    ensures TagText(line + CRLF + rest, tag) == TagText(rest, tag)
  {
    var pre := line + CRLF;
    var buf := pre + rest;
    forall q: nat | q < |pre|
      ensures !Usable(buf, tag, q)
    {
      if q == 0 {
        NotAPrefix(line, rest, tag);
      } else if q <= |line| {
        assert buf[q - 1] == line[q - 1];
      } else {
        var c := buf[q];
        assert c == '\n' && tag[0] != c;
      }
    }
    SkipPrefix(pre, rest, tag);
  }

  lemma NotAPrefix(line: string, rest: string, tag: string)
    requires NoEol(tag) && !OccursAt(line, tag, 0)
    ensures !OccursAt(line + CRLF + rest, tag, 0)
  {
    var buf := line + CRLF + rest;
    if |tag| <= |line| {
      assert buf[..|tag|] == line[..|tag|];
    } else {
      assert buf[|line|] == '\r' && tag[|line|] != '\r';
    }
  }

  /** The value of a header line, wherever its value begins. */
  lemma ValueThere(pre: string, value: string, rest: string)
    requires NoEol(value)
    ensures var buf := pre + (value + CRLF + rest);
            && LineEnd(buf, |pre|) == |pre| + |value| < |buf|
            && buf[|pre|..|pre| + |value|] == value
  {
    ValueEnds(value, rest);
    LineEndShift(pre, value + CRLF + rest, 0);
  }

  lemma HeaderValueSpan(h: Header, rest: string)
    requires WellFormed(h)
    ensures var buf := Line(h) + CRLF + rest;
            && Usable(buf, Tag(h.name), 0)
            && ValueFrom(buf, |Tag(h.name)|) == h.value
  {
    var tag := Tag(h.name);
    var pre := tag + Spaces(h.pad);
    var tail := h.value + CRLF + rest;
    var buf := Line(h) + CRLF + rest;
    assert buf == pre + tail == tag + (Spaces(h.pad) + tail);
    assert buf[..|tag|] == tag;
    SpacesSkipped(tag, h.pad, tail);
    ValueThere(pre, h.value, rest);
  }

  /** A header line that begins with the tag gives its value. */
  lemma HitLine(h: Header, rest: string)
    requires WellFormed(h)
    ensures TagText(Line(h) + CRLF + rest, Tag(h.name)) == Some(h.value)
  {
    HeaderValueSpan(h, rest);
  }

  lemma {:induction false} SpacesSkipped(pre: string, pad: nat, tail: string)
    requires tail != "" && tail[0] != ' '
    ensures SkipSpaces(pre + (Spaces(pad) + tail), |pre|) == |pre| + pad
    decreases pad
  {
    var buf := pre + (Spaces(pad) + tail);
    if pad == 0 {
      assert buf[|pre|] == tail[0];
    } else {
      assert buf == (pre + " ") + (Spaces(pad - 1) + tail);
      SpacesSkipped(pre + " ", pad - 1, tail);
    }
  }

  lemma ValueEnds(value: string, rest: string)
    requires NoEol(value)
    ensures LineEnd(value + CRLF + rest, 0) == |value|
  {
    var s := value + CRLF + rest;
    assert s[|value|] == '\r';
    assert forall j :: 0 <= j < |value| ==> s[j] == value[j];
  }

  /** Distinct names never match each other's lines: a name holds no colon. */
  lemma OtherNameMisses(h: Header, name: string)
    requires WellFormed(h) && IsName(name) && h.name != name
    ensures !OccursAt(Line(h), Tag(name), 0)
  {
    var line := Line(h);
    assert line[|h.name|] == ':';
    if |name| < |h.name| {
      assert line[|name|] == h.name[|name|] != ':';
    } else if |name| > |h.name| {
      assert name[|h.name|] != ':';
    } else {
      assert line[..|name|] == h.name;
      assert (line[..|name| + 1])[..|name|] == h.name && Tag(name)[..|name|] == name;
    }
  }

  /** Rendering headers and scanning for `name:` gives the value of the first
      header of that name; when there is none the scan goes on in what follows. */
  lemma {:induction false} HeaderRoundTrip(hs: seq<Header>, name: string, rest: string)
    requires forall h :: h in hs ==> WellFormed(h)
    requires IsName(name)
    ensures TagText(Render(hs) + rest, Tag(name)) ==
            if FirstValue(hs, name).Some? then FirstValue(hs, name) else TagText(rest, Tag(name))
  {
    if hs == [] {
      assert Render(hs) + rest == rest;
    } else {
      var more := Render(hs[1..]) + rest;
      assert Render(hs) + rest == Line(hs[0]) + CRLF + more;
      if hs[0].name == name {
        HitLine(hs[0], more);
      } else {
        OtherNameMisses(hs[0], name);
        SkipLine(Line(hs[0]), more, Tag(name));
        HeaderRoundTrip(hs[1..], name, rest);
      }
    }
  }

  lemma EmptyLineSkipped(body: string, tag: string)
    requires NoEol(tag) && tag != ""
    ensures TagText(CRLF + body, tag) == TagText(body, tag)
  {
    var none := "";
    assert none + CRLF + body == CRLF + body;
    SkipLine(none, body, tag);
  }

  /** A whole message: start line, headers, an empty line and a body. */
  function Message(startLine: string, hs: seq<Header>, body: string): string {
    startLine + CRLF + (Render(hs) + (CRLF + body))
  }

  /** In a message whose start line does not begin with the tag, the headers are
      searched first. */
  lemma MessageRoundTrip(startLine: string, hs: seq<Header>, body: string, name: string)
    requires NoEol(startLine) && !OccursAt(startLine, Tag(name), 0)
    requires forall h :: h in hs ==> WellFormed(h)
    requires IsName(name)
    ensures FirstValue(hs, name).Some? ==>
              TagText(Message(startLine, hs, body), Tag(name)) == FirstValue(hs, name)
    ensures FirstValue(hs, name).None? ==>
              TagText(Message(startLine, hs, body), Tag(name)) == TagText(body, Tag(name))
  {
    var rest := CRLF + body;
    SkipLine(startLine, Render(hs) + rest, Tag(name));
    HeaderRoundTrip(hs, name, rest);
    EmptyLineSkipped(body, Tag(name));
  }

  /** A message has no header of the name, to the scanner, exactly when neither its
      headers nor its body have one. */
  lemma AbsentFromMessageIff(startLine: string, hs: seq<Header>, body: string, name: string)
    requires NoEol(startLine) && !OccursAt(startLine, Tag(name), 0)
    requires forall h :: h in hs ==> WellFormed(h)
    requires IsName(name)
    ensures TagText(Message(startLine, hs, body), Tag(name)) == None <==>
            FirstValue(hs, name) == None && TagText(body, Tag(name)) == None
  {
    MessageRoundTrip(startLine, hs, body, name);
  }

  /** Headers alone: a name that is not among them is not found. */
  lemma AbsentHeaderNotFound(hs: seq<Header>, name: string)
    requires forall h :: h in hs ==> WellFormed(h)
    requires IsName(name)
    ensures TagText(Render(hs), Tag(name)) == FirstValue(hs, name)
  {
    HeaderRoundTrip(hs, name, "");
    assert Render(hs) + "" == Render(hs);
    assert TagText("", Tag(name)) == None;
  }
}
