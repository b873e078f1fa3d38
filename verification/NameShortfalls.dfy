/** Names that come out differently from what was meant: display names that disturb the
    extraction, and file names too long for the slot's copy. */
module NameShortfalls {
  import opened Text
  import opened PeerName
  import opened Slots
  import opened Template
  import opened Machine
  import opened Captures
  import opened CallStory
  import opened Shortfalls

  // ---- display names ----

  /** A display name that begins with a quotation mark and a scheme. */
  function Quoted(rest: string): string { "\"" + (SIP + rest) }

  lemma QuotedScheme(rest: string)
    ensures Search(Quoted(rest), SIP, 0) == 1 && Quoted(rest)[5..] == rest
  {
    var s := Quoted(rest);
    assert s[1..5] == SIP;
    assert s[0..4][0] == '"';
    SearchIs(s, SIP, 0, 1);
  }

  /** Without any `@`, a scheme in the display name, as in `"sip:bob"`, is taken for the
      address. */
  lemma SchemeInDisplayName(rest: string, user: string, host: string)
    requires Free(rest, '@') && user != "" && Free(user, '@')
    ensures PeerUser(Quoted(rest) + "<sip:" + user + "@" + host) == Some(rest + "<sip:" + user)
    ensures !ReadsBack(Quoted(rest), user, '@')
  {
    QuotedScheme(rest);
    FreeIff(Quoted(rest), '@');
    UserBeforeAt(Quoted(rest), user, host);
  }

  /** With the same user's address in the display name, as in `"sip:1001@pbx"`, the user
      reads back. */
  lemma AddressInDisplayName(rest: string, user: string, host: string)
    requires user != "" && Free(user, '@')
    ensures ReadsBack(Quoted(user + "@" + rest), user, '@')
    ensures PeerUser(Quoted(user + "@" + rest) + "<sip:" + user + "@" + host) == Some(user)
  {
    var disp := Quoted(user + "@" + rest);
    var pre := Quoted(user);
    QuotedScheme(user + "@" + rest);
    assert disp == pre + ['@'] + rest;
    SearchChar(pre, '@', rest);
    assert disp[5..|pre|] == user;
    UserBeforeAt(disp, user, host);
  }

  // ---- file names ----

  /** An event of a slot's sweep is one of the table's. */
  lemma {:induction false} SweepIncludes(cfg: Config, t: Table, n: nat, now: int, i: nat, e: Event)
    requires i < n <= |t| && e in SlotSweepEvents(t[i], i, now, cfg)
    ensures e in SweepEvents(t, n, now, cfg)
  {
    var before, last := SweepEvents(t, n - 1, now, cfg), SlotSweepEvents(t[n - 1], n - 1, now, cfg);
    assert SweepEvents(t, n, now, cfg) == before + last;
    if i < n - 1 {
      SweepIncludes(cfg, t, n - 1, now, i, e);
      assert e in before;
    } else {
      assert e in last;
    }
  }

  /** A recorded call whose file name has more than 127 characters: at the end the name
      that is deleted or announced is not the one that was opened. */
  lemma LongNameIsNotEnded(cfg: Config, p: Packet, q: Request)
    requires StartsRecorded(cfg, p, q) && p.time < INT32_MAX - IDLE_LIMIT
    requires |RenderedName(cfg, p, q)| > NAME_LIMIT
    ensures var log := Finish(cfg, Run(cfg, [p])).log;
            var name := RenderedName(cfg, p, q);
            && Opened(1, name) in log && CutName(name) != name
            && (Unlinked(1, CutName(name)) in log || CloseTriggered(1, CutName(name)) in log)
            && (!cfg.t38Only ==> CloseTriggered(1, CutName(name)) in log)
  {
    var s := Run(cfg, [p]);
    FirstRecordIs(cfg, p, q);
    var slot := s.table[0];
    assert RecordOf(slot) == ExpectedRecord(cfg, Before(cfg, [], p), p, q);
    FirstIsNew(cfg, p, q);
    SweepIncludes(cfg, s.table, |s.table|, INT32_MAX, 0, Ending(slot, cfg));
  }

  lemma {:induction false} PlainTemplate(fmt: string, fs: Fields, conv: Conversions)
    requires '%' !in fmt
    ensures Clean(fmt) && FieldTotal(fmt, fs) == 0 && Rendering(fmt, fs, conv) == fmt
  {
    if fmt != "" {
      PlainTemplate(fmt[1..], fs, conv);
    }
  }

  /** All calls go to a file with a name of 128 characters. */
  function LongName(): string { seq(128, _ => 'x') }

  function RecordLong(): Config { RecordAll().(template := LongName()) }

  lemma LongIsRendered()
    ensures RenderedName(RecordLong(), FIRST, INVITE) == LongName()
  {
    PlainTemplate(LongName(), RequestFields(INVITE), At(RecordLong(), FIRST.time));
  }

  lemma LongIsRecorded()
    ensures StartsRecorded(RecordLong(), FIRST, INVITE)
  {
    InviteIsRendered();
    InviteIsSip();
    PlainTemplate(LongName(), RequestFields(INVITE), At(RecordLong(), FIRST.time));
  }

  /** There is such a capture. */
  lemma LongNameIsNotEndedExists()
    ensures Opened(1, LongName()) in Finish(RecordLong(), Run(RecordLong(), [FIRST])).log
    ensures CloseTriggered(1, CutName(LongName())) in Finish(RecordLong(), Run(RecordLong(), [FIRST])).log
    ensures CutName(LongName()) != LongName()
  {
    LongIsRecorded();
    LongIsRendered();
    LongNameIsNotEnded(RecordLong(), FIRST, INVITE);
  }
}
