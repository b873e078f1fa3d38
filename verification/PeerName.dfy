/** The caller and callee names cut out of `From:` and `To:` header values. */
module PeerName {
  import opened Text
  import opened StrLib
  import opened HeaderList

  const SIP := "sip:"
  const TEL := "tel:"
  const FAILED := "empty"

  /** First occurrence of `first`, or failing that of `second`, or -1. */
  function SearchEither(s: string, first: string, second: string): (r: int)
    ensures -1 <= r
  {
    if Search(s, first, 0) >= 0 then Search(s, first, 0) else Search(s, second, 0)
  }

  /** The text between the scheme and the first `@` (or, without one, the first
      `>`) of the whole value; nothing when either is missing or out of order. */
  function PeerUser(value: string): Option<string> {
    var r := SearchEither(value, SIP, TEL);
    var r2 := SearchEither(value, "@", ">");
    if r < 0 || r2 <= r + 4 then None else Some(value[r + 4..r2])
  }

  /** The value of a header, or nothing to search in when it is missing. */
  function ValueOf(data: string, tag: string): string {
    match TagText(data, tag)
    case None => ""
    case Some(v) => v
  }

  function PeerText(data: string, tag: string): string {
    match PeerUser(ValueOf(data, tag))
    case None => FAILED
    case Some(user) => user
  }

  /** Writing the C string `text` at the head of a buffer that has room for it. */
  function Overwrite(buf: string, text: string): (r: string)
    ensures |r| >= |buf|
    ensures |text| < |buf| ==> |r| == |buf|
  {
    text + [NUL] + (if |text| < |buf| then buf[|text| + 1..] else "")
  }

  method CopyText(text: string, buf: array<char>)
    requires |text| < buf.Length
    modifies buf
    ensures buf[..] == Overwrite(old(buf[..]), text)
  {
    forall k | 0 <= k < |text| {
      buf[k] := text[k];
    }
    buf[|text|] := NUL;
    assert buf[..|text|] == text;
    assert buf[..] == buf[..|text|] + [buf[|text|]] + buf[|text| + 1..];
    assert buf[|text| + 1..] == old(buf[..])[|text| + 1..];
  }

  method GetValue(data: string, tag: string) returns (value: string)
    requires tag != ""
    ensures value == ValueOf(data, tag)
  {
    var start, len := GetTag(data, tag);
    value := if start < 0 then "" else data[start..start + len];
    TextOfValue(data, tag);
  }

  /** The two searches: where the name begins and ends, or an empty span on failure. */
  method FindUser(value: string) returns (r: nat, r2: nat)
    ensures r2 <= |value|
    ensures PeerUser(value) == if r2 <= r then None else Some(value[r..r2])
  {
    r, r2 := 0, 0;
    var scheme := Memmem(value, SIP);
    if scheme < 0 {
      scheme := Memmem(value, TEL);
    }
    if scheme < 0 {
      return;
    }
    var end := Memmem(value, "@");
    if end < 0 {
      end := Memmem(value, ">");
    }
    if end < 0 {
      return;
    }
    r, r2 := scheme + 4, end;
  }

  /** Fills the caller's buffer; the buffer must hold the extracted text and its
      NUL, as the source assumes without a check. Returns 0 on success, else 1. */
  method GetSipPeername(data: string, tag: string, peername: array<char>) returns (rc: int)
    requires tag != ""
    requires |PeerText(data, tag)| < peername.Length
    modifies peername
    ensures peername[..] == Overwrite(old(peername[..]), PeerText(data, tag))
    ensures rc == if PeerUser(ValueOf(data, tag)).Some? then 0 else 1
  {
    var value := GetValue(data, tag);
    var r, r2 := FindUser(value);
    if r2 <= r {
      CopyText(FAILED, peername);
      return 1;
    }
    CopyText(value[r..r2], peername);
    return 0;
  }

  // ---- what rendering and reading back gives ----

  predicate Free(s: string, c: char) { c !in s }

  /** A one-character search finds the end of a prefix that lacks the character. */
  lemma SearchChar(pre: string, c: char, post: string)
    requires Free(pre, c)
    ensures Search(pre + [c] + post, [c], 0) == |pre|
  {
    var s := pre + [c] + post;
    assert s[|pre|..|pre| + 1] == [c];
    forall p: nat | p < |pre|
      ensures !OccursAt(s, [c], p)
    {
      assert s[p..p + 1] == [pre[p]];
    }
    SearchIs(s, [c], 0, |pre|);
  }

  /** The scheme is found right after the `<` that ends a scheme-free display name:
      an occurrence straddling the border would have to contain the `<`. */
  lemma SearchScheme(disp: string, post: string)
    requires Search(disp, SIP, 0) < 0
    ensures Search(disp + "<sip:" + post, SIP, 0) == |disp| + 1
  {
    var s := disp + "<sip:" + post;
    assert s[|disp| + 1..|disp| + 5] == SIP;
    forall p: nat | p < |disp| + 1
      ensures !OccursAt(s, SIP, p)
    {
      if p + 4 <= |disp| {
        assert s[p..p + 4] == disp[p..p + 4];
        assert !OccursAt(disp, SIP, p);
      } else {
        assert s[|disp|] == '<' && s[p..p + 4][|disp| - p] == '<';
      }
    }
    SearchIs(s, SIP, 0, |disp| + 1);
  }

  /** The extraction ends at the first `c` of the value. */
  ghost predicate EndsAt(value: string, c: char) { SearchEither(value, "@", ">") == Search(value, [c], 0) }

  /** The span between a scheme and an end mark that have been found. */
  lemma PeerUserIs(value: string, c: char, r: nat, r2: nat)
    requires EndsAt(value, c) && Search(value, SIP, 0) == r && Search(value, [c], 0) == r2 <= |value|
    ensures PeerUser(value) == if r2 <= r + 4 then None else Some(value[r + 4..r2])
  {
    var first, last := SearchEither(value, SIP, TEL), SearchEither(value, "@", ">");
    assert first == r && last == r2;
  }

  /** The scheme and the end mark `c`, in a value whose parts lack them. */
  lemma SpanFound(disp: string, user: string, c: char, post: string)
    requires Search(disp, SIP, 0) < 0 && Free(disp, c) && Free(user, c) && Free("<sip:", c)
    ensures var value := disp + "<sip:" + user + [c] + post;
            && Search(value, SIP, 0) == |disp| + 1
            && Search(value, [c], 0) == |disp| + 5 + |user| < |value|
            && value[|disp| + 5..|disp| + 5 + |user|] == user
  {
    var pre := disp + "<sip:";
    var value := pre + user + [c] + post;
    assert value == pre + (user + [c] + post);
    SearchScheme(disp, user + [c] + post);
    SearchChar(pre + user, c, post);
  }

  /** What is found in a prefix is found there in the whole. */
  lemma SearchInPrefix(pre: string, post: string, pat: string)
    requires Search(pre, pat, 0) >= 0
    ensures Search(pre + post, pat, 0) == Search(pre, pat, 0)
  {
    var r := Search(pre, pat, 0);
    var s := pre + post;
    assert s[r..r + |pat|] == pre[r..r + |pat|];
    forall p: nat | p < r
      ensures !OccursAt(s, pat, p)
    {
      assert s[p..p + |pat|] == pre[p..p + |pat|];
      assert !OccursAt(pre, pat, p);
    }
    SearchIs(s, pat, 0, r);
  }

  lemma FreeIff(s: string, c: char)
    ensures Search(s, [c], 0) < 0 <==> Free(s, c)
  {
    if Free(s, c) {
      AbsentChar(s, c);
    } else {
      var p :| 0 <= p < |s| && s[p] == c;
      assert s[p..p + 1] == [c];
      assert OccursAt(s, [c], p);
    }
  }

  /** What is cut out of `disp<sip:user` and the end mark `c`: a scheme or an end mark in
      the display name comes first. */
  function Extracted(disp: string, user: string, c: char): Option<string> {
    var r, p := Search(disp, SIP, 0), Search(disp, [c], 0);
    if r < 0 then if p < 0 then Some(user) else None
    else if p < 0 then Some(disp[r + 4..] + "<sip:" + user)
    else if p > r + 4 then Some(disp[r + 4..p])
    else None
  }

  /** The display name does not disturb, or happens to name the same user. */
  predicate ReadsBack(disp: string, user: string, c: char) {
    var r, p := Search(disp, SIP, 0), Search(disp, [c], 0);
    (r < 0 && p < 0) || (r >= 0 && p > r + 4 && disp[r + 4..p] == user)
  }

  function Marked(disp: string, user: string, c: char, post: string): string { disp + "<sip:" + user + [c] + post }

  predicate IsMark(c: char) { c == '@' || c == '>' }

  /** Neither in the display name. */
  lemma NothingInDisplay(disp: string, user: string, c: char, post: string)
    requires Search(disp, SIP, 0) < 0 && Free(disp, c) && IsMark(c) && user != "" && Free(user, c)
    requires EndsAt(Marked(disp, user, c, post), c)
    ensures PeerUser(Marked(disp, user, c, post)) == Some(user)
  {
    SpanFound(disp, user, c, post);
    PeerUserIs(Marked(disp, user, c, post), c, |disp| + 1, |disp| + 5 + |user|);
  }

  lemma Joined(disp: string, user: string, c: char, post: string)
    ensures Marked(disp, user, c, post) == disp + "<sip:" + (user + [c] + post)
    ensures Marked(disp, user, c, post) == disp + ("<sip:" + user + [c] + post)
    ensures Marked(disp, user, c, post) == disp + ("<sip:" + user) + [c] + post
  {
  }

  /** An end mark only: it comes before the scheme. */
  lemma MarkInDisplay(disp: string, user: string, c: char, post: string)
    requires Search(disp, SIP, 0) < 0 && Search(disp, [c], 0) >= 0
    requires EndsAt(Marked(disp, user, c, post), c)
    ensures PeerUser(Marked(disp, user, c, post)) == None
  {
    Joined(disp, user, c, post);
    SearchScheme(disp, user + [c] + post);
    SearchInPrefix(disp, "<sip:" + user + [c] + post, [c]);
    PeerUserIs(Marked(disp, user, c, post), c, |disp| + 1, Search(disp, [c], 0));
  }

  /** A scheme and an end mark. */
  lemma BothInDisplay(disp: string, rest: string, c: char)
    requires Search(disp, SIP, 0) >= 0 && Search(disp, [c], 0) >= 0 && EndsAt(disp + rest, c)
    ensures var r, p := Search(disp, SIP, 0), Search(disp, [c], 0);
            PeerUser(disp + rest) == if p > r + 4 then Some(disp[r + 4..p]) else None
  {
    var r, p := Search(disp, SIP, 0), Search(disp, [c], 0);
    SearchInPrefix(disp, rest, SIP);
    SearchInPrefix(disp, rest, [c]);
    PeerUserIs(disp + rest, c, r, p);
    assert p > r + 4 ==> (disp + rest)[r + 4..p] == disp[r + 4..p];
  }

  /** A scheme only: what is cut out begins there. */
  lemma SchemeInDisplay(disp: string, rest: string, c: char, post: string)
    requires Search(disp, SIP, 0) >= 0 && Free(disp, c) && Free(rest, c) && rest != ""
    requires EndsAt(disp + rest + [c] + post, c)
    ensures PeerUser(disp + rest + [c] + post) == Some(disp[Search(disp, SIP, 0) + 4..] + rest)
  {
    var r := Search(disp, SIP, 0);
    SchemeFound(disp, rest, c, post);
    TailOf(disp, rest, c, post, r + 4);
    PeerUserIs(disp + rest + [c] + post, c, r, |disp + rest|);
  }

  lemma SchemeFound(disp: string, rest: string, c: char, post: string)
    requires Search(disp, SIP, 0) >= 0 && Free(disp, c) && Free(rest, c)
    ensures Search(disp + rest + [c] + post, SIP, 0) == Search(disp, SIP, 0)
    ensures Search(disp + rest + [c] + post, [c], 0) == |disp + rest|
  {
    assert disp + rest + [c] + post == disp + (rest + [c] + post);
    SearchInPrefix(disp, rest + [c] + post, SIP);
    SearchChar(disp + rest, c, post);
  }

  lemma TailOf(a: string, b: string, c: char, post: string, from: nat)
    requires from <= |a|
    ensures (a + b + [c] + post)[from..|a + b|] == a[from..] + b
  {
  }

  lemma LongerThanUser(a: string, user: string)
    ensures a + ("<sip:" + user) == a + "<sip:" + user
    ensures a + "<sip:" + user != user
  {
    assert |a + "<sip:" + user| > |user|;
  }

  lemma SchemeAlone(disp: string, user: string, c: char, post: string)
    requires Search(disp, SIP, 0) >= 0 && Search(disp, [c], 0) < 0 && IsMark(c) && Free(user, c)
    requires EndsAt(Marked(disp, user, c, post), c)
    ensures PeerUser(Marked(disp, user, c, post)) == Extracted(disp, user, c) != Some(user)
  {
    FreeIff(disp, c);
    Joined(disp, user, c, post);
    SchemeInDisplay(disp, "<sip:" + user, c, post);
    LongerThanUser(disp[Search(disp, SIP, 0) + 4..], user);
  }

  lemma UserBeforeMark(disp: string, user: string, c: char, post: string)
    requires IsMark(c) && user != "" && Free(user, c) && EndsAt(Marked(disp, user, c, post), c)
    ensures PeerUser(Marked(disp, user, c, post)) == Extracted(disp, user, c)
    ensures PeerUser(Marked(disp, user, c, post)) == Some(user) <==> ReadsBack(disp, user, c)
  {
    FreeIff(disp, c);
    if Search(disp, SIP, 0) >= 0 {
      if Search(disp, [c], 0) < 0 {
        SchemeAlone(disp, user, c, post);
      } else {
        Joined(disp, user, c, post);
        BothInDisplay(disp, "<sip:" + user + [c] + post, c);
      }
    } else if Free(disp, c) {
      NothingInDisplay(disp, user, c, post);
    } else {
      MarkInDisplay(disp, user, c, post);
    }
  }

  lemma AtIsMark(disp: string, user: string, host: string)
    ensures EndsAt(Marked(disp, user, '@', host), '@')
  {
    FreeIff(Marked(disp, user, '@', host), '@');
    assert Marked(disp, user, '@', host)[|disp| + 5 + |user|] == '@';
  }

  lemma BracketIsMark(disp: string, user: string, post: string)
    requires Free(disp, '@') && Free(user, '@') && Free(post, '@')
    ensures EndsAt(Marked(disp, user, '>', post), '>')
  {
    AbsentChar(Marked(disp, user, '>', post), '@');
  }

  /** `disp<sip:user@host...` reads back as `user` if and only if the display name holds
      neither a scheme nor an `@`, or holds both with the same user between them. */
  lemma UserBeforeAt(disp: string, user: string, host: string)
    requires user != "" && Free(user, '@')
    ensures PeerUser(disp + "<sip:" + user + "@" + host) == Extracted(disp, user, '@')
    ensures PeerUser(disp + "<sip:" + user + "@" + host) == Some(user) <==> ReadsBack(disp, user, '@')
  {
    AtIsMark(disp, user, host);
    UserBeforeMark(disp, user, '@', host);
  }

  /** `disp<sip:user>...` without any `@` reads back as `user` if and only if the display
      name holds neither a scheme nor a `>`, or holds both with the same user between
      them. */
  lemma UserBeforeBracket(disp: string, user: string, post: string)
    requires user != "" && Free(user, '>')
    requires Free(disp, '@') && Free(user, '@') && Free(post, '@')
    ensures PeerUser(disp + "<sip:" + user + ">" + post) == Extracted(disp, user, '>')
    ensures PeerUser(disp + "<sip:" + user + ">" + post) == Some(user) <==> ReadsBack(disp, user, '>')
  {
    BracketIsMark(disp, user, post);
    UserBeforeMark(disp, user, '>', post);
  }

  lemma AbsentChar(s: string, c: char)
    requires Free(s, c)
    ensures Search(s, [c], 0) < 0
  {
    assert forall p :: OccursAt(s, [c], p) ==> s[p..p + 1][0] == c;
  }

  lemma SearchTel(disp: string, post: string)
    requires Search(disp, TEL, 0) < 0
    ensures Search(disp + "<tel:" + post, TEL, 0) == |disp| + 1
  {
    var s := disp + "<tel:" + post;
    assert s[|disp| + 1..|disp| + 5] == TEL;
    forall p: nat | p < |disp| + 1
      ensures !OccursAt(s, TEL, p)
    {
      if p + 4 <= |disp| {
        assert s[p..p + 4] == disp[p..p + 4];
        assert !OccursAt(disp, TEL, p);
      } else {
        assert s[|disp|] == '<' && s[p..p + 4][|disp| - p] == '<';
      }
    }
    SearchIs(s, TEL, 0, |disp| + 1);
  }

  lemma TelSpan(value: string, r: nat, r2: nat)
    requires Search(value, SIP, 0) < 0 && Search(value, TEL, 0) == r
    requires EndsAt(value, '>') && Search(value, ">", 0) == r2 && r + 4 < r2 <= |value|
    ensures PeerUser(value) == Some(value[r + 4..r2])
  {
    var first, last := SearchEither(value, SIP, TEL), SearchEither(value, "@", ">");
    assert first == r && last == r2;
  }

  /** A telephone address, in a value without a `sip:` and without an `@`: the number up
      to the bracket is the name. */
  lemma TelBeforeBracket(disp: string, number: string, post: string)
    requires Search(disp + "<tel:" + number + ">" + post, SIP, 0) < 0
    requires Search(disp + "<tel:" + number + ">" + post, "@", 0) < 0
    requires Search(disp, TEL, 0) < 0 && Free(disp, '>') && number != "" && Free(number, '>')
    ensures PeerUser(disp + "<tel:" + number + ">" + post) == Some(number)
  {
    var pre := disp + "<tel:" + number;
    var value := pre + ">" + post;
    assert value == disp + "<tel:" + (number + ">" + post);
    SearchTel(disp, number + ">" + post);
    SearchChar(pre, '>', post);
    TelSpan(value, |disp| + 1, |pre|);
    assert value[|disp| + 5..|pre|] == number;
  }

  /** Through both scanners: in a rendered message whose first header of that name
      is an address `disp<sip:user@host...`, the buffer ends up holding `user`. */
  lemma PeerRoundTrip(startLine: string, hs: seq<Header>, body: string, name: string,
                      disp: string, user: string, host: string, buf: string)
    requires NoEol(startLine) && !OccursAt(startLine, Tag(name), 0)
    requires forall h :: h in hs ==> WellFormed(h)
    requires IsName(name)
    requires FirstValue(hs, name) == Some(disp + "<sip:" + user + "@" + host)
    requires ReadsBack(disp, user, '@')
    requires user != "" && Free(user, '@') && Free(user, NUL) && |user| < |buf|
    ensures PeerText(Message(startLine, hs, body), Tag(name)) == user
    ensures CString(Overwrite(buf, user)) == user
  {
    MessageRoundTrip(startLine, hs, body, name);
    UserBeforeAt(disp, user, host);
    CStringOfTerminated(user, buf[|user| + 1..]);
  }

  /** The same for an address `disp<sip:user>...` in a value without any `@`. */
  lemma BracketRoundTrip(startLine: string, hs: seq<Header>, body: string, name: string,
                         disp: string, user: string, post: string, buf: string)
    requires NoEol(startLine) && !OccursAt(startLine, Tag(name), 0)
    requires forall h :: h in hs ==> WellFormed(h)
    requires IsName(name)
    requires FirstValue(hs, name) == Some(disp + "<sip:" + user + ">" + post)
    requires Free(disp, '@') && Free(user, '@') && Free(post, '@') && ReadsBack(disp, user, '>')
    requires user != "" && Free(user, '>') && Free(user, NUL) && |user| < |buf|
    ensures PeerText(Message(startLine, hs, body), Tag(name)) == user
    ensures CString(Overwrite(buf, user)) == user
  {
    MessageRoundTrip(startLine, hs, body, name);
    UserBeforeBracket(disp, user, post);
    CStringOfTerminated(user, buf[|user| + 1..]);
  }
}
