/** Inputs at which the program does not do what is expected of it; the exact
    conditions stand with the theorems. */
module Shortfalls {
  import opened Text
  import opened HeaderList
  import opened PeerName
  import opened Sip
  import opened SipBytes
  import opened Slots
  import opened Template
  import opened Machine
  import opened Captures
  import opened Ownership
  import opened FragmentRouting
  import opened CaptureFiles
  import opened WholeRuns
  import opened SsrcSticky
  import opened CallStory
  import opened CallCreation
  import opened FragmentFiles

  // ---- a fragment written to a closed file ----

  const KEY := FragKey(1, 2, 3)
  const ALICE := Address("", "a", "h")
  const INVITE := Request("INVITE b", HEADERS, "", ALICE, ALICE, "1")
  const HEADERS := [
    Header("From", 1, AddressText(ALICE)), Header("To", 1, AddressText(ALICE)), Header("Call-ID", 1, "1"),
    Header("Content-Type", 1, "application/sdp")]

  /** Every call is admitted and sampled; no body announces anything. */
  function RecordAll(): Config {
    Config(SaveRtp, false, INT32_MAX, 1, false, "", _ => true, _ => true, _ => None, (_, _) => "")
  }

  const FIRST := Packet(1, true, Udp(1, 5060, 2, 5060, RequestText(INVITE), Nuls(LEAST_PAYLOAD), Some(KEY)))
  const FOLLOW_ON := Packet(400, true, FollowOn(KEY, false))

  lemma AliceIsReadable()
    ensures Readable(ALICE) && AddressText(ALICE) == "<sip:a@h"
  {
    assert Search("", SIP, 0) < 0 && Search("", "@", 0) < 0;
  }

  lemma HeadersAreFound()
    ensures FirstValue(HEADERS, "From") == FirstValue(HEADERS, "To") == Some(AddressText(ALICE))
    ensures FirstValue(HEADERS, "Call-ID") == Some("1")
    ensures FirstValue(HEADERS, "Content-Type") == Some("application/sdp")
  {
    assert FirstValue(HEADERS[1..], "To") == Some(AddressText(ALICE));
    assert FirstValue(HEADERS[1..][1..], "Call-ID") == Some("1");
    assert FirstValue(HEADERS[1..][1..], "Content-Type") == FirstValue(HEADERS[1..][1..][1..], "Content-Type");
    assert FirstValue(HEADERS[1..], "Content-Type") == FirstValue(HEADERS[1..][1..], "Content-Type");
  }

  predicate Plain(h: Header) { WellFormed(h) && NUL !in h.name && NUL !in h.value }

  predicate PlainName(name: string) { IsName(name) && NUL !in name }

  predicate PlainValue(value: string) { NoEol(value) && NUL !in value && (value != "" ==> value[0] != ' ') }

  lemma NamesArePlain()
    ensures PlainName("From") && PlainName("To") && PlainName("Call-ID") && PlainName("Content-Type")
  {
  }

  lemma ValuesArePlain()
    ensures PlainValue(AddressText(ALICE)) && PlainValue("1") && PlainValue("application/sdp")
  {
    AliceIsReadable();
  }

  lemma HeadersArePlain(h: Header)
    requires h in HEADERS
    ensures Plain(h)
  {
    NamesArePlain();
    ValuesArePlain();
    PlainParts(h);
    assert h == HEADERS[0] || h == HEADERS[1] || h == HEADERS[2] || h == HEADERS[3];
  }

  lemma PlainParts(h: Header)
    ensures PlainName(h.name) && PlainValue(h.value) ==> Plain(h)
  {
  }

  lemma InviteCarries(name: string, value: string)
    requires FirstValue(HEADERS, name) == Some(value) && IsName(name) && name != "" && name[0] != 'I'
    ensures Carries(INVITE, name, value)
  {
    StartsOtherwise("INVITE b", Tag(name));
  }

  lemma StartsOtherwise(line: string, tag: string)
    requires line != "" && tag != "" && line[0] != tag[0]
    ensures !OccursAt(line, tag, 0)
  {
    assert |tag| <= |line| ==> line[0..|tag|][0] == line[0];
  }

  lemma InviteIsRendered()
    ensures WellRendered(INVITE)
  {
    AliceIsReadable();
    HeadersAreFound();
    forall h | h in HEADERS
      ensures WellFormed(h)
    {
      HeadersArePlain(h);
    }
    InviteCarries("From", AddressText(ALICE));
    InviteCarries("To", AddressText(ALICE));
    InviteCarries("Call-ID", "1");
  }

  lemma InviteIsSip()
    ensures IsSip(Seen(FIRST.body))
  {
    var data := Seen(FIRST.body);
    var word := data[..METHOD_SIZE] + " ";
    assert word == "INVITE b\r ";
    TokenEndIs(word, 6);
  }

  /** The capture's first packet starts a recorded call. */
  predicate StartsRecorded(cfg: Config, p: Packet, q: Request) {
    && p.body.Udp? && p.body.payload == RequestText(q)
    && WellRendered(q) && IsSip(Seen(p.body)) && Admitted(cfg, q)
    && cfg.methodFilter(MethodName(Seen(p.body))) && p.openWorks
    && Renderable(cfg, q)
  }

  /** And it is a first fragment. */
  predicate StartsFragmented(cfg: Config, p: Packet, q: Request, key: FragKey) {
    StartsRecorded(cfg, p, q) && p.body.first == Some(key)
  }

  lemma FirstIsNew(cfg: Config, p: Packet, q: Request)
    requires StartsRecorded(cfg, p, q)
    ensures var s := Before(cfg, [], p);
            s.table == [] && s.skip == 1 && s.nextFile == 1 && NewRequest(cfg, s, p, q)
  {
    assert Run(cfg, []) == Init();
  }

  lemma FirstRecordIs(cfg: Config, p: Packet, q: Request)
    requires StartsRecorded(cfg, p, q)
    ensures var r := Run(cfg, [p]);
            && |r.table| > 0 && r.table[0].isUsed
            && RecordOf(r.table[0]) == ExpectedRecord(cfg, Before(cfg, [], p), p, q)
            && r.table[0].file == 1 && Opened(1, RenderedName(cfg, p, q)) in r.log
            && (BodyReadable(q) ==> TracksOnly(r.table[0], AnnouncedBy(cfg, q)))
            && (p.body.first.Some? ==> Lookup(r.frags, p.body.first.value) == r.table[0].file)
  {
    FirstIsNew(cfg, p, q);
    FirstFileIs(cfg, p, q);
    FirstRunIs(cfg, p);
    RequestStartsCall(cfg, [], p, q);
    assert RecordOf(Run(cfg, [p]).table[0]).file == 1;
  }

  lemma FirstRunIs(cfg: Config, p: Packet)
    ensures Run(cfg, [] + [p]) == Run(cfg, [p])
  {
    assert [] + [p] == [p];
  }

  lemma FirstFileIs(cfg: Config, p: Packet, q: Request)
    requires StartsRecorded(cfg, p, q)
    ensures ExpectedRecord(cfg, Before(cfg, [], p), p, q).file == 1
  {
    FirstIsNew(cfg, p, q);
  }

  lemma FirstCallHoldsFile(cfg: Config, p: Packet, q: Request, key: FragKey)
    requires StartsFragmented(cfg, p, q, key)
    ensures var r := Run(cfg, [p]);
            && |r.table| > 0 && r.table[0].isUsed && r.table[0].file == 1 && r.table[0].lastTime == p.time
            && Routed(r.log, key) == 1
  {
    FirstRecordIs(cfg, p, q);
    RunRoutes(cfg, Init(), [p]);
  }

  lemma SweepComesBefore(cfg: Config, p: Packet, later: int)
    requires cfg.limit >= 0 && 0 <= p.time && p.time + IDLE_LIMIT < later < WORD
    ensures SweepDue(Run(cfg, [p]), later)
  {
    RecentRun(cfg, [p], p.time);
  }

  /** Such a request, more than 300 seconds of silence, and a follow-on fragment of it:
      the sweep before the fragment closes the file, and the fragment is written to it. */
  lemma FragmentToClosedFile(cfg: Config, p: Packet, q: Request, late: Packet)
    requires late.body.FollowOn? && StartsFragmented(cfg, p, q, late.body.key)
    requires cfg.limit >= 0 && 0 <= p.time && p.time + IDLE_LIMIT < late.time < WORD
    ensures Times(Before(cfg, [p], late).log, Closed(1)) == 1
    ensures Run(cfg, [p, late]).log ==
            Before(cfg, [p], late).log
            + ([Wrote(Fragment, 1, 1)] + (if late.body.more then [] else [LastFragment(late.body.key)]))
    ensures !AllWritesOpen(Run(cfg, [p, late]).log)
  {
    var s, s1 := Run(cfg, [p]), Before(cfg, [p], late);
    FirstCallHoldsFile(cfg, p, q, late.body.key);
    SweepComesBefore(cfg, p, late.time);
    RunOwnsFiles(cfg, [p]);
    assert !StillHeld(cfg, s, late.time, 1);
    SweptOwnsFiles(cfg, [p], late.time);
    HeldIsOwned(cfg, s, late.time, 1);
    assert FileHistory(s.table, s.nextFile, s.log, 1);
    assert FileHistory(s1.table, s1.nextFile, s1.log, 1);
    assert [p] + [late] == [p, late];
    FragmentsFollowTheirFirst(cfg, [p], late);
    FragmentsWriteOpen(cfg, [p], late);
    RunKeepsOrder(cfg, [p]);
  }

  /** There is such a capture. */
  lemma FragmentToClosedFileExists()
    ensures !AllWritesOpen(Run(RecordAll(), [FIRST, FOLLOW_ON]).log)
  {
    InviteIsRendered();
    InviteIsSip();
    FragmentToClosedFile(RecordAll(), FIRST, INVITE, FOLLOW_ON);
  }

  // ---- an entry for a method that does not match ----

  /** Every call is admitted, no method matches. */
  function MatchNone(): Config { RecordAll().(methodFilter := _ => false) }

  /** The first packet of this capture adds a call, although its method does not match,
      and causes no open attempt. */
  lemma UnmatchedMethodAddsCall()
    ensures var r := Step(MatchNone(), Init(), FIRST);
            && [] <= r.log && HasAdded(Since(Init(), r)) && OpenAttempted !in Since(Init(), r)
  {
    InviteIsRendered();
    InviteIsSip();
    assert SweepFirst(MatchNone(), Init(), FIRST.time) == Init();
    RequestIsStart(MatchNone(), Init(), FIRST, INVITE);
    StepAddsIff(MatchNone(), Init(), FIRST);
    MethodDecidesFileOnly(MatchNone(), Init(), FIRST);
  }

  lemma RequestIsStart(cfg: Config, s: State, p: Packet, q: Request)
    requires p.body.Udp? && NewRequest(cfg, s, p, q) && Admitted(cfg, q)
    ensures StartsCall(cfg, s.table, p)
  {
    RequestRead(q);
    IsSipIff(Seen(p.body));
    assert CallFields(RequestText(q), q.id).from == q.from.user;
    assert CallFields(RequestText(q), q.id).to == q.to.user;
  }

  // ---- a file name longer than what the table stores ----

  /** A caller of 17 characters and the template `%f`. */
  lemma LongNameIsShownWhole(to: string, id: string, conv: Conversions)
    ensures var fs := Fields("abcdefghijklmnopq", to, id);
            ShowsLongName("%f", fs, PEER_SIZE)
            && Rendering("%f", fs, conv) != Rendering("%f", Cut(fs, PEER_SIZE), conv)
  {
    CutMattersIff("%f", Fields("abcdefghijklmnopq", to, id), conv, PEER_SIZE);
  }
}
