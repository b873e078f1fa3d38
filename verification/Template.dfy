/** File-name templates: `%f`, `%t` and `%i` are expanded with sanitised call
    fields in a first pass, the time conversions in a second one. */
module Template {
  import opened Text

  /** The C strings that `%f`, `%t` and `%i` stand for. */
  datatype Fields = Fields(from: string, to: string, callId: string)

  /** How one time conversion is printed; its result may be any text. */
  type Conversions = char -> string

  /** The work buffer is this many bytes longer than the template. */
  const SLACK := 256

  /** The entries of the sanitising table that map a character to itself. */
  predicate Unchanged(c: char) {
    || '0' <= c <= '9' || 'A' <= c <= 'Z' || 'a' <= c <= 'z'
    || c in {'#', '&', '(', ')', '+', ',', '-', '.', ';', '=', '@', '[', ']', '^', '_', '{', '}', '~'}
  }

  /** The table entry of a character's low seven bits; all others are `_`. */
  function San(c: char): (r: char)
    ensures Harmless(r)
  {
    var low := (c as int % 128) as char;
    if Unchanged(low) then low else '_'
  }

  predicate Harmless(c: char) { c != '%' && c != '/' && c != NUL }

  function Sanitised(s: string): (r: string)
    ensures |r| == |s|
    ensures forall k :: 0 <= k < |s| ==> Harmless(r[k])
  {
    if s == "" then "" else [San(s[0])] + Sanitised(s[1..])
  }

  predicate IsField(c: char) { c == 'f' || c == 't' || c == 'i' }

  function FieldOf(c: char, fs: Fields): string
    requires IsField(c)
  {
    if c == 'f' then fs.from else if c == 't' then fs.to else fs.callId
  }

  /** What the first pass writes for the rest of the template once `used` bytes of
      the buffer are filled: a field is expanded only if it still fits there. */
  function FirstPass(fmt: string, fs: Fields, room: int, used: nat): string {
    if fmt == "" then ""
    else if |fmt| >= 2 && fmt[0] == '%' && IsField(fmt[1]) && room - used > |FieldOf(fmt[1], fs)| then
      var field := FieldOf(fmt[1], fs);
      Sanitised(field) + FirstPass(fmt[2..], fs, room, used + |field|)
    else [fmt[0]] + FirstPass(fmt[1..], fs, room, used + 1)
  }

  /** The text the first pass leaves in its buffer. */
  function Expanded(fmt: string, fs: Fields): string {
    FirstPass(fmt, fs, |fmt| + SLACK, 0)
  }

  /** Writes a sanitised field at `p`: copy, then clean in place up to the NUL. */
  method PutField(buf: array<char>, p: nat, field: string)
    requires NUL !in field && p + |field| < buf.Length
    modifies buf
    ensures buf[..p + |field|] == old(buf[..p]) + Sanitised(field)
  {
    forall k | 0 <= k < |field| {
      buf[p + k] := field[k];
    }
    buf[p + |field|] := NUL;
    var q := p;
    while buf[q] != NUL
      invariant p <= q <= p + |field|
      invariant buf[..p] == old(buf[..p])
      invariant buf[p..q] == Sanitised(field)[..q - p]
      invariant forall k :: q <= k < p + |field| ==> buf[k] == field[k - p]
      invariant buf[p + |field|] == NUL
      decreases buf.Length - q
    {
      SanitisedAt(field, q - p);
      buf[q] := San(buf[q]);
      q := q + 1;
    }
    assert buf[..q] == buf[..p] + buf[p..q];
  }

  lemma {:induction false} SanitisedAt(s: string, k: nat)
    requires k < |s|
    ensures Sanitised(s)[k] == San(s[k])
  {
    if k > 0 {
      SanitisedAt(s[1..], k - 1);
    }
  }

  /** One round of the first pass, at position `i` of the template, after `done`. */
  lemma FirstPassRound(fmt: string, fs: Fields, room: int, i: nat, done: string)
    requires i < |fmt|
    ensures var c0 := fmt[i];
            var rest := done + FirstPass(fmt[i..], fs, room, |done|);
            if c0 == '%' && i < |fmt| - 1 && IsField(fmt[i + 1]) && room - |done| > |FieldOf(fmt[i + 1], fs)| then
              var field := FieldOf(fmt[i + 1], fs);
              rest == (done + Sanitised(field)) + FirstPass(fmt[i + 2..], fs, room, |done| + |field|)
            else
              rest == (done + [c0]) + FirstPass(fmt[i + 1..], fs, room, |done| + 1)
  {
    var rest := fmt[i..];
    assert rest[1..] == fmt[i + 1..];
    if i < |fmt| - 1 {
      assert rest[1] == fmt[i + 1] && rest[2..] == fmt[i + 2..];
    }
  }

  /** The first pass, in a buffer of the source's size. The source does not check
      its literal writes, so its caller must know that the text fits. */
  method ExpandFields(fmt: string, fs: Fields) returns (s1: array<char>, n: nat)
    requires NUL !in fmt && NUL !in fs.from && NUL !in fs.to && NUL !in fs.callId
    requires |Expanded(fmt, fs)| < |fmt| + SLACK
    ensures fresh(s1) && s1.Length == |fmt| + SLACK
    ensures n < s1.Length && s1[..n] == Expanded(fmt, fs) && s1[n] == NUL
  {
    var room := |fmt| + SLACK;
    s1 := new char[room];
    var i := 0;
    n := 0;
    ghost var done, text := "", Expanded(fmt, fs);
    while i < |fmt|
      invariant 0 <= i <= |fmt|
      invariant n == |done| <= |text| && s1[..n] == done
      invariant text == done + FirstPass(fmt[i..], fs, room, |done|)
    {
      var c0 := fmt[i];
      FirstPassRound(fmt, fs, room, i, done);
      if c0 == '%' && i < |fmt| - 1 && IsField(fmt[i + 1]) && room - n > |FieldOf(fmt[i + 1], fs)| {
        var field := FieldOf(fmt[i + 1], fs);
        PutField(s1, n, field);
        n := n + |field|;
        i := i + 2;
        done := done + Sanitised(field);
      } else {
        s1[n] := c0;
        n := n + 1;
        i := i + 1;
        done := done + [c0];
      }
    }
    assert fmt[i..] == "";
    s1[n] := NUL;
  }

  // ---- the two passes and their meaning ----

  /** The time pass: `%%` is a percent sign, `%c` any other conversion. */
  function TimePass(s: string, conv: Conversions): string {
    if s == "" then ""
    else if s[0] == '%' && |s| >= 2 then
      (if s[1] == '%' then "%" else conv(s[1])) + TimePass(s[2..], conv)
    else [s[0]] + TimePass(s[1..], conv)
  }

  /** The intended meaning: one pass from left to right, in which the sanitised
      fields are literal text and every other `%c` is a time conversion. */
  function Rendering(fmt: string, fs: Fields, conv: Conversions): string {
    if fmt == "" then ""
    else if fmt[0] == '%' && |fmt| >= 2 then
      (if IsField(fmt[1]) then Sanitised(FieldOf(fmt[1], fs))
       else if fmt[1] == '%' then "%"
       else conv(fmt[1])) + Rendering(fmt[2..], fs, conv)
    else [fmt[0]] + Rendering(fmt[1..], fs, conv)
  }

  /** No `%%` of the template (read from left to right) is directly followed by
      one of the letters f, t, i. */
  predicate Clean(fmt: string) {
    if |fmt| < 2 then true
    else if fmt[0] != '%' then Clean(fmt[1..])
    else if fmt[1] == '%' && |fmt| >= 3 && IsField(fmt[2]) then false
    else Clean(fmt[2..])
  }

  /** The total length of the fields that the first pass meets. */
  function FieldTotal(fmt: string, fs: Fields): nat {
    if |fmt| < 2 then 0
    else if fmt[0] == '%' && IsField(fmt[1]) then |FieldOf(fmt[1], fs)| + FieldTotal(fmt[2..], fs)
    else FieldTotal(fmt[1..], fs)
  }

  /** The first pass without a space limit. */
  function AllExpanded(fmt: string, fs: Fields): string {
    if fmt == "" then ""
    else if |fmt| >= 2 && fmt[0] == '%' && IsField(fmt[1]) then
      Sanitised(FieldOf(fmt[1], fs)) + AllExpanded(fmt[2..], fs)
    else [fmt[0]] + AllExpanded(fmt[1..], fs)
  }

  /** With enough room left, no field is skipped. */
  lemma {:induction false} NothingSkipped(fmt: string, fs: Fields, room: int, used: nat)
    requires used + |fmt| + FieldTotal(fmt, fs) < room
    ensures FirstPass(fmt, fs, room, used) == AllExpanded(fmt, fs)
    ensures |AllExpanded(fmt, fs)| <= |fmt| + FieldTotal(fmt, fs)
  {
    if fmt == "" {
    } else if |fmt| >= 2 && fmt[0] == '%' && IsField(fmt[1]) {
      NothingSkipped(fmt[2..], fs, room, used + |FieldOf(fmt[1], fs)|);
    } else {
      NothingSkipped(fmt[1..], fs, room, used + 1);
    }
  }

  /** Fields of at most 255 characters in all are expanded in full, inside the buffer. */
  lemma FitsInBuffer(fmt: string, fs: Fields)
    requires FieldTotal(fmt, fs) <= 255
    ensures Expanded(fmt, fs) == AllExpanded(fmt, fs)
    ensures |Expanded(fmt, fs)| < |fmt| + SLACK
  {
    NothingSkipped(fmt, fs, |fmt| + SLACK, 0);
  }

  function Count(c: char, s: string): nat {
    if s == "" then 0 else (if s[0] == c then 1 else 0) + Count(c, s[1..])
  }

  lemma {:induction false} CountAppend(c: char, a: string, b: string)
    ensures Count(c, a + b) == Count(c, a) + Count(c, b)
  {
    if a == "" {
      assert a + b == b;
    } else {
      assert (a + b)[1..] == a[1..] + b;
      CountAppend(c, a[1..], b);
    }
  }

  lemma {:induction false} CountAbsent(c: char, s: string)
    requires c !in s
    ensures Count(c, s) == 0
  {
    if s != "" {
      CountAbsent(c, s[1..]);
    }
  }

  /** The number of fields that the first pass meets. */
  function FieldCount(fmt: string): nat {
    if |fmt| < 2 then 0
    else if fmt[0] == '%' && IsField(fmt[1]) then 1 + FieldCount(fmt[2..])
    else FieldCount(fmt[1..])
  }

  /** Call fields add no directory separator and no conversion: every `/` of the
      expansion stands in the template, and every `%` of the template but those of
      the expanded fields is left. */
  lemma {:induction false} FieldsAddNothing(fmt: string, fs: Fields)
    ensures Count('/', AllExpanded(fmt, fs)) == Count('/', fmt)
    ensures Count('%', AllExpanded(fmt, fs)) + FieldCount(fmt) == Count('%', fmt)
  {
    if fmt == "" {
    } else if |fmt| >= 2 && fmt[0] == '%' && IsField(fmt[1]) {
      var clean := Sanitised(FieldOf(fmt[1], fs));
      var rest := AllExpanded(fmt[2..], fs);
      FieldsAddNothing(fmt[2..], fs);
      CountAppend('/', clean, rest);
      CountAppend('%', clean, rest);
      CountAbsent('/', clean);
      CountAbsent('%', clean);
      assert fmt[1..][1..] == fmt[2..];
    } else {
      FieldsAddNothing(fmt[1..], fs);
      CountHead('/', fmt[0], AllExpanded(fmt[1..], fs));
      CountHead('%', fmt[0], AllExpanded(fmt[1..], fs));
    }
  }

  lemma CountHead(c: char, h: char, t: string)
    ensures Count(c, [h] + t) == (if h == c then 1 else 0) + Count(c, t)
  {
    assert ([h] + t)[1..] == t;
  }

  lemma LiteralHead(c: char, rest: string, conv: Conversions)
    requires c != '%'
    ensures TimePass([c] + rest, conv) == [c] + TimePass(rest, conv)
  {
    assert ([c] + rest)[1..] == rest;
  }

  /** Text without a percent sign passes through the time pass unchanged. */
  lemma {:induction false} TimePassLiteral(lit: string, rest: string, conv: Conversions)
    requires '%' !in lit
    ensures TimePass(lit + rest, conv) == lit + TimePass(rest, conv)
  {
    if lit == "" {
      assert lit + rest == rest;
    } else {
      var more := lit[1..] + rest;
      assert lit + rest == [lit[0]] + more && (lit + rest)[1..] == more;
      TimePassLiteral(lit[1..], rest, conv);
      LiteralHead(lit[0], more, conv);
      assert [lit[0]] + (lit[1..] + TimePass(rest, conv)) == lit + TimePass(rest, conv);
    }
  }

  lemma TimePassConversion(c: char, rest: string, conv: Conversions)
    ensures TimePass(['%', c] + rest, conv) == (if c == '%' then "%" else conv(c)) + TimePass(rest, conv)
  {
    assert (['%', c] + rest)[2..] == rest;
  }

  /** Two passes mean one: on a clean template the time pass over the expansion is
      the left-to-right rendering. */
  lemma {:induction false} TwoPassesMeanOne(fmt: string, fs: Fields, conv: Conversions)
    requires Clean(fmt)
    ensures TimePass(AllExpanded(fmt, fs), conv) == Rendering(fmt, fs, conv)
  {
    if |fmt| < 2 {
    } else if fmt[0] != '%' {
      TwoPassesMeanOne(fmt[1..], fs, conv);
      TimePassLiteral([fmt[0]], AllExpanded(fmt[1..], fs), conv);
    } else if IsField(fmt[1]) {
      TwoPassesMeanOne(fmt[2..], fs, conv);
      TimePassLiteral(Sanitised(FieldOf(fmt[1], fs)), AllExpanded(fmt[2..], fs), conv);
    } else {
      TwoPassesMeanOne(fmt[2..], fs, conv);
      var rest := AllExpanded(fmt[2..], fs);
      assert fmt[1..][1..] == fmt[2..];
      assert AllExpanded(fmt[1..], fs) == [fmt[1]] + rest;
      assert AllExpanded(fmt, fs) == ['%', fmt[1]] + rest;
      TimePassConversion(fmt[1], rest, conv);
    }
  }

  // ---- and only on clean templates ----

  function Letters(s: string): nat {
    if s == "" then 0 else (if IsField(s[0]) then 1 else 0) + Letters(s[1..])
  }

  lemma LettersHead(c: char, t: string)
    ensures Letters([c] + t) == (if IsField(c) then 1 else 0) + Letters(t)
  {
    assert ([c] + t)[1..] == t;
  }

  const NO_FIELDS := Fields("", "", "")

  const QUIET: Conversions := _ => ""

  /** The time pass can only lose letters when its conversions print nothing. */
  lemma {:induction false} TimePassLosesLetters(s: string)
    ensures Letters(TimePass(s, QUIET)) <= Letters(s)
  {
    if s == "" {
    } else if s[0] == '%' && |s| >= 2 {
      TimePassLosesLetters(s[2..]);
      assert s[1..][1..] == s[2..];
      LettersHead('%', TimePass(s[2..], QUIET));
      assert "" + TimePass(s[2..], QUIET) == TimePass(s[2..], QUIET);
    } else {
      TimePassLosesLetters(s[1..]);
      LettersHead(s[0], TimePass(s[1..], QUIET));
    }
  }

  /** The first pass takes a letter for a field that the rendering keeps, at every
      `%%` directly followed by one. */
  lemma {:induction false} UncleanLosesLetters(fmt: string)
    ensures Letters(AllExpanded(fmt, NO_FIELDS)) <= Letters(Rendering(fmt, NO_FIELDS, QUIET))
    ensures !Clean(fmt) ==> Letters(AllExpanded(fmt, NO_FIELDS)) < Letters(Rendering(fmt, NO_FIELDS, QUIET))
    decreases |fmt|, 1
  {
    if |fmt| < 2 {
      assert fmt == "" || AllExpanded(fmt, NO_FIELDS) == Rendering(fmt, NO_FIELDS, QUIET) == fmt;
    } else if fmt[0] != '%' {
      UncleanLosesLetters(fmt[1..]);
      LettersHead(fmt[0], AllExpanded(fmt[1..], NO_FIELDS));
      LettersHead(fmt[0], Rendering(fmt[1..], NO_FIELDS, QUIET));
    } else if IsField(fmt[1]) {
      UncleanLosesLetters(fmt[2..]);
      DropEmpty(AllExpanded(fmt[2..], NO_FIELDS), Rendering(fmt[2..], NO_FIELDS, QUIET));
    } else {
      UncleanConversion(fmt);
    }
  }

  lemma DropEmpty(a: string, b: string)
    ensures "" + a == a && "" + b == b
  {
  }

  lemma UncleanConversion(fmt: string)
    requires |fmt| >= 2 && fmt[0] == '%' && !IsField(fmt[1])
    ensures Letters(AllExpanded(fmt, NO_FIELDS)) <= Letters(Rendering(fmt, NO_FIELDS, QUIET))
    ensures !Clean(fmt) ==> Letters(AllExpanded(fmt, NO_FIELDS)) < Letters(Rendering(fmt, NO_FIELDS, QUIET))
    decreases |fmt|, 0
  {
    var rest := fmt[2..];
    assert fmt[1..][1..] == rest;
    var rendered := Rendering(rest, NO_FIELDS, QUIET);
    LettersHead('%', rendered);
    DropEmpty(rendered, rendered);
    assert Letters(Rendering(fmt, NO_FIELDS, QUIET)) == Letters(rendered);
    LettersHead('%', AllExpanded(fmt[1..], NO_FIELDS));
    if fmt[1] == '%' && |fmt| >= 3 && IsField(fmt[2]) {
      var more := fmt[3..];
      assert fmt[1..][2..] == more && rest[1..] == more && fmt[1..][1] == fmt[2];
      UncleanLosesLetters(more);
      DropEmpty(AllExpanded(more, NO_FIELDS), "");
      LettersHead(fmt[2], Rendering(more, NO_FIELDS, QUIET));
    } else {
      UncleanLosesLetters(rest);
      assert AllExpanded(fmt[1..], NO_FIELDS) == [fmt[1]] + AllExpanded(rest, NO_FIELDS);
      LettersHead(fmt[1], AllExpanded(rest, NO_FIELDS));
    }
  }

  /** For which templates the two passes are the rendering, whatever the fields
      (of at most 255 characters in all) and the conversions. */
  lemma CleanTemplatesExactly(fmt: string)
    ensures Clean(fmt) <==> forall fs, conv | FieldTotal(fmt, fs) <= 255 ::
                              TimePass(Expanded(fmt, fs), conv) == Rendering(fmt, fs, conv)
  {
    forall fs, conv | Clean(fmt) && FieldTotal(fmt, fs) <= 255
      ensures TimePass(Expanded(fmt, fs), conv) == Rendering(fmt, fs, conv)
    {
      FitsInBuffer(fmt, fs);
      TwoPassesMeanOne(fmt, fs, conv);
    }
    if !Clean(fmt) {
      NoFieldsIsShort(fmt);
      FitsInBuffer(fmt, NO_FIELDS);
      UncleanLosesLetters(fmt);
      TimePassLosesLetters(Expanded(fmt, NO_FIELDS));
      assert TimePass(Expanded(fmt, NO_FIELDS), QUIET) != Rendering(fmt, NO_FIELDS, QUIET);
    }
  }

  lemma {:induction false} NoFieldsIsShort(fmt: string)
    ensures FieldTotal(fmt, NO_FIELDS) == 0
  {
    if |fmt| >= 2 {
      NoFieldsIsShort(fmt[1..]);
      NoFieldsIsShort(fmt[2..]);
    }
  }

  // ---- cut names ----

  /** Names cut to `n` characters. */
  function Cut(fs: Fields, n: nat): Fields {
    Fields(if |fs.from| > n then fs.from[..n] else fs.from, if |fs.to| > n then fs.to[..n] else fs.to, fs.callId)
  }

  /** The template, read from left to right, has the field `%c`. */
  predicate Uses(fmt: string, c: char) {
    fmt != ""
    && if fmt[0] == '%' && |fmt| >= 2 then fmt[1] == c || Uses(fmt[2..], c) else Uses(fmt[1..], c)
  }

  /** The template shows a name that is longer than `n`. */
  predicate ShowsLongName(fmt: string, fs: Fields, n: nat) {
    (Uses(fmt, 'f') && |fs.from| > n) || (Uses(fmt, 't') && |fs.to| > n)
  }

  lemma {:induction false} CutShortens(fmt: string, fs: Fields, conv: Conversions, n: nat)
    ensures var whole, cut := Rendering(fmt, fs, conv), Rendering(fmt, Cut(fs, n), conv);
            if ShowsLongName(fmt, fs, n) then |cut| < |whole| else cut == whole
  {
    if fmt != "" {
      CutShortens(if fmt[0] == '%' && |fmt| >= 2 then fmt[2..] else fmt[1..], fs, conv, n);
    }
  }

  /** Cutting the names changes what is rendered exactly when the template shows one
      that is too long. */
  lemma CutMattersIff(fmt: string, fs: Fields, conv: Conversions, n: nat)
    ensures Rendering(fmt, fs, conv) != Rendering(fmt, Cut(fs, n), conv) <==> ShowsLongName(fmt, fs, n)
  {
    CutShortens(fmt, fs, conv, n);
  }

  // ---- what a field looks like in the name ----

  /** The runs of characters that stay: letters, digits, and `# & ( ) + , - . ; = @ [ ] ^ _ { } ~`. */
  predicate Stays(c: char) {
    || c == '#' || c == '&' || '(' <= c <= ')' || '+' <= c <= '.' || '0' <= c <= '9' || c == ';' || c == '='
    || '@' <= c <= '[' || ']' <= c <= '_' || 'a' <= c <= '{' || '}' <= c <= '~'
  }

  lemma StaysIff(c: char)
    ensures Unchanged(c) <==> Stays(c)
  {
  }

  /** The low seven bits of a byte. */
  function LowBits(c: char): char { (c as int % 128) as char }

  /** Character by character: one that stays is itself, any other 7-bit character is `_`,
      and a byte with its high bit set counts as its low seven bits. */
  lemma SanitisedIs(s: string, k: nat)
    ensures k < |s| ==> Sanitised(s)[k] == if Stays(LowBits(s[k])) then LowBits(s[k]) else '_'
  {
    if k < |s| {
      SanitisedAt(s, k);
      StaysIff(LowBits(s[k]));
    }
  }

  predicate AllStay(s: string) { forall k :: 0 <= k < |s| ==> Stays(s[k]) }

  /** A field of such characters is expanded as itself. */
  lemma PlainFieldStays(s: string)
    ensures AllStay(s) ==> Sanitised(s) == s
  {
    if AllStay(s) {
      forall k | 0 <= k < |s|
        ensures Sanitised(s)[k] == s[k]
      {
        SanitisedIs(s, k);
        SevenBits(s[k]);
      }
    }
  }

  lemma SevenBits(c: char)
    requires Stays(c)
    ensures LowBits(c) == c
  {
  }

  /** The template with these texts for `%f`, `%t` and `%i`. */
  function Verbatim(fmt: string, from: string, to: string, callId: string, conv: Conversions): string {
    if fmt == "" then ""
    else if fmt[0] == '%' && |fmt| >= 2 then
      (match fmt[1]
       case 'f' => from
       case 't' => to
       case 'i' => callId
       case '%' => "%"
       case c => conv(c)) + Verbatim(fmt[2..], from, to, callId, conv)
    else [fmt[0]] + Verbatim(fmt[1..], from, to, callId, conv)
  }

  lemma {:induction false} RenderingIsVerbatim(fmt: string, fs: Fields, conv: Conversions)
    ensures Rendering(fmt, fs, conv) ==
            Verbatim(fmt, Sanitised(fs.from), Sanitised(fs.to), Sanitised(fs.callId), conv)
  {
    if fmt != "" {
      RenderingIsVerbatim(if fmt[0] == '%' && |fmt| >= 2 then fmt[2..] else fmt[1..], fs, conv);
    }
  }

  /** Plain fields stand in the rendering as they are. */
  lemma PlainFieldsShow(fmt: string, fs: Fields, conv: Conversions)
    ensures AllStay(fs.from) && AllStay(fs.to) && AllStay(fs.callId) ==>
              Rendering(fmt, fs, conv) == Verbatim(fmt, fs.from, fs.to, fs.callId, conv)
  {
    RenderingIsVerbatim(fmt, fs, conv);
    PlainFieldStays(fs.from);
    PlainFieldStays(fs.to);
    PlainFieldStays(fs.callId);
  }

  /** Behind literal text a field stands in its place. */
  lemma {:induction false} FieldShows(lit: string, c: char, rest: string, from: string, to: string, callId: string,
                                      conv: Conversions)
    requires '%' !in lit && IsField(c)
    ensures Verbatim(lit + ("%" + [c] + rest), from, to, callId, conv) ==
            lit + ((if c == 'f' then from else if c == 't' then to else callId)
                   + Verbatim(rest, from, to, callId, conv))
  {
    var fmt := lit + ("%" + [c] + rest);
    if lit == "" {
      assert fmt == "%" + [c] + rest && fmt[2..] == rest;
    } else {
      assert fmt[1..] == lit[1..] + ("%" + [c] + rest);
      FieldShows(lit[1..], c, rest, from, to, callId, conv);
    }
  }

  /** Alone in the template, a field is expanded if and only if it has at most 257
      characters; a longer one leaves the two characters of the template. */
  lemma LoneFieldFits(c: char, fs: Fields)
    requires IsField(c)
    ensures var field := if c == 'f' then fs.from else if c == 't' then fs.to else fs.callId;
            Expanded("%" + [c], fs) == if |field| <= 257 then Sanitised(field) else "%" + [c]
  {
    var fmt := "%" + [c];
    assert fmt[1..] == [c] && fmt[2..] == "" && [c][1..] == "";
    assert FirstPass("", fs, 258, |FieldOf(c, fs)|) == "" && FirstPass("", fs, 258, 2) == "";
    assert FirstPass([c], fs, 258, 1) == [c];
  }
}
