/** From the text of a request to the recorded call: what its rendered headers become
    in the table, in the name of the dump file and in the file. */
module CallStory {
  import opened Text
  import opened StrLib
  import opened HeaderList
  import opened PeerName
  import opened Sip
  import opened SdpBodies
  import opened Slots
  import opened Template
  import opened Machine
  import opened Captures
  import opened Dispatchers
  import opened TableShape
  import opened WholeRuns

  // ---- the request ----

  datatype Address = Address(display: string, user: string, host: string)

  function AddressText(a: Address): string { a.display + "<sip:" + a.user + "@" + a.host }

  predicate Readable(a: Address) {
    && ReadsBack(a.display, a.user, '@')
    && a.user != "" && Free(a.user, '@') && Free(a.user, NUL)
  }

  datatype Request = Request(startLine: string, hs: seq<Header>, body: string, from: Address, to: Address, id: string)

  function RequestText(q: Request): string { Message(q.startLine, q.hs, q.body) }

  /** The first header of that name holds the value, and the start line is not taken for one. */
  predicate Carries(q: Request, name: string, value: string) {
    IsName(name) && !OccursAt(q.startLine, Tag(name), 0) && FirstValue(q.hs, name) == Some(value)
  }

  predicate WellRendered(q: Request) {
    && NoEol(q.startLine) && (forall h :: h in q.hs ==> WellFormed(h))
    && Carries(q, "From", AddressText(q.from)) && Readable(q.from)
    && Carries(q, "To", AddressText(q.to)) && Readable(q.to)
    && Carries(q, "Call-ID", q.id) && NUL !in q.id
  }

  function RequestFields(q: Request): Fields { Fields(q.from.user, q.to.user, q.id) }

  /** The first 16 bytes of the C string in its zeroed buffer. */
  function Stored(user: string): string { (user + Nuls(PEER_SIZE))[..PEER_SIZE] }

  lemma HeaderRead(q: Request, name: string, value: string)
    requires NoEol(q.startLine) && forall h :: h in q.hs ==> WellFormed(h)
    requires Carries(q, name, value)
    ensures TagText(RequestText(q), Tag(name)) == Some(value)
  {
    MessageRoundTrip(q.startLine, q.hs, q.body, name);
  }

  lemma NameRead(data: string, tag: string, short: string, a: Address)
    requires TagText(data, tag) == Some(AddressText(a)) && Readable(a)
    ensures var buf := NameBuffer(data, tag, short);
            CString(buf) == a.user && buf[..PEER_SIZE] == Stored(a.user)
  {
    UserBeforeAt(a.display, a.user, a.host);
    assert NameBuffer(data, tag, short) == Overwrite(Nuls(NAME_SIZE), a.user);
    WrittenOnce(a.user);
  }

  /** A name written into the zeroed buffer. */
  lemma WrittenOnce(user: string)
    requires Free(user, NUL)
    ensures var buf := Overwrite(Nuls(NAME_SIZE), user);
            CString(buf) == user && buf[..PEER_SIZE] == Stored(user)
  {
    var zeros := Nuls(NAME_SIZE);
    var rest := if |user| < |zeros| then zeros[|user| + 1..] else "";
    CStringOfTerminated(user, rest);
    var buf := user + [NUL] + rest;
    assert |buf| >= NAME_SIZE;
    assert forall k :: 0 <= k < |rest| ==> rest[k] == NUL;
    assert forall k :: 0 <= k < PEER_SIZE ==> buf[k] == Stored(user)[k];
  }

  /** What the loop reads out of a well-rendered request is what was put in. */
  lemma RequestRead(q: Request)
    requires WellRendered(q)
    ensures CallId(RequestText(q)) == Some(q.id)
    ensures CallFields(RequestText(q), q.id) == RequestFields(q)
    ensures Caller(RequestText(q))[..PEER_SIZE] == Stored(q.from.user)
    ensures Callee(RequestText(q))[..PEER_SIZE] == Stored(q.to.user)
  {
    var data := RequestText(q);
    assert Tag("From") == "From:" && Tag("To") == "To:" && Tag("Call-ID") == "Call-ID:";
    HeaderRead(q, "From", AddressText(q.from));
    HeaderRead(q, "To", AddressText(q.to));
    HeaderRead(q, "Call-ID", q.id);
    NameRead(data, "From:", "f:", q.from);
    NameRead(data, "To:", "t:", q.to);
    CStringOfTerminated(q.id, "");
    assert q.id + [NUL] + "" == q.id + [NUL];
    CStringWhole(q.id);
  }

  lemma {:induction false} CStringWhole(s: string)
    requires NUL !in s
    ensures CString(s) == s
  {
    if s != "" {
      CStringWhole(s[1..]);
    }
  }

  // ---- the call it starts ----

  /** What a slot remembers of the request that started its call. */
  datatype Record = Record(
    key: CallKey, caller: string, callee: string, start: int, last: int, file: Handle, fileName: string)

  function RecordOf(s: Slot): Record {
    Record(SlotKey(s), s.caller, s.callee, s.firstTime, s.lastTime, s.file, s.fileName)
  }

  /** Later messages of the call leave its record and its flows alone. */
  ghost predicate Grows(s: State, r: State, i: nat) {
    && i < |s.table| && i < |r.table|
    && r.table[i].isUsed == s.table[i].isUsed && RecordOf(r.table[i]) == RecordOf(s.table[i])
    && s.log <= r.log && r.pos == s.pos && r.nextFile == s.nextFile
    && forall k, addr, port :: Tracks(s.table[i], k, addr, port) ==> Tracks(r.table[i], k, addr, port)
  }

  lemma ActionGrows(cfg: Config, s: State, a: Action, i: nat)
    requires OnUsedSlot(a) && i < |s.table|
    ensures Grows(s, Apply(cfg, s, a), i)
  {
  }

  lemma GrowsOn(s: State, s1: State, r: State, i: nat)
    requires Grows(s, s1, i) && Grows(s1, r, i)
    ensures Grows(s, r, i)
  {
  }

  lemma IfGrows(cfg: Config, s: State, c: bool, a: Action, i: nat)
    requires OnUsedSlot(a) && i < |s.table|
    ensures Grows(s, ApplyIf(cfg, s, c, a), i)
  {
    ActionGrows(cfg, s, a, i);
  }

  /** The pair that a call's message announces. */
  function Announced(cfg: Config, data: string): Option<(Addr, Port)> {
    var sdp := SdpBody(data);
    if sdp.Some? then cfg.media(sdp.value) else None
  }

  /** The slot's flows are the announced pair, or none. */
  predicate TracksOnly(s: Slot, media: Option<(Addr, Port)>) {
    if media.Some? then s.ipN == 1 && Tracks(s, 0, media.value.0, media.value.1) else s.ipN == 0
  }

  /** The request's body can be told from its headers. */
  predicate BodyReadable(q: Request) {
    && NUL !in Head(q.startLine, q.hs)
    && OnlyInHeaders(q.startLine, q.body, "Content-Type") && OnlyInHeaders(q.startLine, q.body, "c")
  }

  /** The pair that the body of the request, as it was rendered, announces. */
  function AnnouncedBy(cfg: Config, q: Request): Option<(Addr, Port)> {
    var t := ContentType(q.hs);
    if t.Some? && MayHoldSdp(t.value) then cfg.media(EMPTY_LINE + q.body) else None
  }

  lemma AnnouncedIsRendered(cfg: Config, q: Request)
    requires NoEol(q.startLine) && (forall h :: h in q.hs ==> WellFormed(h)) && BodyReadable(q)
    ensures Announced(cfg, RequestText(q)) == AnnouncedBy(cfg, q)
  {
    SdpBodyIs(q.startLine, q.hs, q.body);
  }

  lemma FirstOfferTaken(cfg: Config, s: State, i: nat, addr: Addr, port: Port)
    requires i < |s.table| && s.table[i].isUsed && s.table[i].ipN == 0
    ensures TracksOnly(Apply(cfg, s, Offer(i, addr, port)).table[i], Some((addr, port)))
  {
  }

  /** Nothing but an offer changes which pairs are tracked. */
  lemma FlowsStay(cfg: Config, s: State, c: bool, a: Action, i: nat, media: Option<(Addr, Port)>)
    requires OnUsedSlot(a) && !a.Offer? && i < |s.table|
    ensures i < |ApplyIf(cfg, s, c, a).table|
    ensures TracksOnly(ApplyIf(cfg, s, c, a).table[i], media) <==> TracksOnly(s.table[i], media)
  {
  }

  lemma SdpStory(cfg: Config, s: State, i: nat, sdp: string)
    requires i < |s.table| && s.table[i].isUsed
    ensures Grows(s, OnSdp(cfg, s, i, sdp), i)
    ensures s.table[i].ipN == 0 ==> TracksOnly(OnSdp(cfg, s, i, sdp).table[i], cfg.media(sdp))
  {
    var media := cfg.media(sdp);
    if media.Some? || !cfg.verbose {
      var ev := RtpmapEvent(CString(sdp));
      var offer := if media.Some? then Offer(i, media.value.0, media.value.1) else Bye(i);
      var s1 := ApplyIf(cfg, s, media.Some?, offer);
      var s2 := ApplyIf(cfg, s1, ev != 0, SetEvent(i, ev));
      var t38 := cfg.t38Only && Search(sdp, "udptl t38", 0) >= 0;
      IfGrows(cfg, s, media.Some?, offer, i);
      IfGrows(cfg, s1, ev != 0, SetEvent(i, ev), i);
      IfGrows(cfg, s2, t38, SetT38(i), i);
      GrowsOn(s, s1, s2, i);
      GrowsOn(s, s2, ApplyIf(cfg, s2, t38, SetT38(i)), i);
      FlowsStay(cfg, s1, ev != 0, SetEvent(i, ev), i, media);
      FlowsStay(cfg, s2, t38, SetT38(i), i, media);
      if media.Some? && s.table[i].ipN == 0 {
        FirstOfferTaken(cfg, s, i, media.value.0, media.value.1);
      }
    }
  }

  /** The first half of handling a message: the BYE mark and the body. */
  function AfterSdp(cfg: Config, s: State, i: nat, p: Body): State
    requires p.Udp?
  {
    var s1 := ApplyIf(cfg, s, MethodName(Seen(p)) == "BYE", Bye(i));
    var sdp := SdpBody(p.payload);
    if sdp.Some? then OnSdp(cfg, s1, i, sdp.value) else s1
  }

  lemma BodyStory(cfg: Config, s: State, i: nat, p: Body)
    requires p.Udp? && i < |s.table| && s.table[i].isUsed
    ensures Grows(s, AfterSdp(cfg, s, i, p), i)
    ensures s.table[i].ipN == 0 ==> TracksOnly(AfterSdp(cfg, s, i, p).table[i], Announced(cfg, p.payload))
  {
    var bye := MethodName(Seen(p)) == "BYE";
    var sdp := SdpBody(p.payload);
    var s1 := ApplyIf(cfg, s, bye, Bye(i));
    IfGrows(cfg, s, bye, Bye(i), i);
    FlowsStay(cfg, s, bye, Bye(i), i, None);
    if sdp.Some? {
      SdpStory(cfg, s1, i, sdp.value);
      GrowsOn(s, s1, AfterSdp(cfg, s, i, p), i);
    }
  }

  /** The second half: the write and the fragment map. */
  function AfterWrite(cfg: Config, s: State, i: nat, p: Body): State
    requires p.Udp?
  {
    var s3 := Apply(cfg, s, SipWrite(i));
    if p.first.Some? then Apply(cfg, s3, RecordFragment(i, p.first.value)) else s3
  }

  lemma WriteStory(cfg: Config, s: State, i: nat, p: Body, media: Option<(Addr, Port)>)
    requires p.Udp? && i < |s.table| && s.table[i].isUsed
    ensures var r := AfterWrite(cfg, s, i, p);
            && Grows(s, r, i)
            && (s.table[i].file != 0 ==> Wrote(Signalling, s.table[i].file, s.pos) in r.log)
            && (TracksOnly(s.table[i], media) ==> TracksOnly(r.table[i], media))
            && (p.first.Some? ==> Lookup(r.frags, p.first.value) == s.table[i].file)
  {
    var s3 := Apply(cfg, s, SipWrite(i));
    if s.table[i].file != 0 {
      SipWriteStory(cfg, s, i);
    }
    ActionGrows(cfg, s, SipWrite(i), i);
    FlowsStay(cfg, s, true, SipWrite(i), i, media);
    if p.first.Some? {
      var record := RecordFragment(i, p.first.value);
      ActionGrows(cfg, s3, record, i);
      GrowsOn(s, s3, Apply(cfg, s3, record), i);
      FlowsStay(cfg, s3, true, record, i, media);
    }
  }

  /** A message of a call is written to the call's file, a call without flows then
      tracks the pair announced and no other, and a first fragment's key points to the
      call's file. */
  lemma MessageStory(cfg: Config, s: State, i: nat, p: Body)
    requires p.Udp? && i < |s.table| && s.table[i].isUsed
    ensures var r := OnCall(cfg, s, i, p);
            && Grows(s, r, i)
            && (s.table[i].file != 0 ==> Wrote(Signalling, s.table[i].file, s.pos) in r.log)
            && (s.table[i].ipN == 0 ==> TracksOnly(r.table[i], Announced(cfg, p.payload)))
            && (p.first.Some? ==> Lookup(r.frags, p.first.value) == s.table[i].file)
  {
    var s2 := AfterSdp(cfg, s, i, p);
    BodyStory(cfg, s, i, p);
    WriteStory(cfg, s2, i, p, Announced(cfg, p.payload));
    assert OnCall(cfg, s, i, p) == AfterWrite(cfg, s2, i, p);
    assert RecordOf(s2.table[i]).file == s.table[i].file;
    GrowsOn(s, s2, AfterWrite(cfg, s2, i, p), i);
  }

  lemma SipWriteStory(cfg: Config, s: State, i: nat)
    requires i < |s.table| && s.table[i].isUsed && s.table[i].file != 0
    ensures Wrote(Signalling, s.table[i].file, s.pos) in Apply(cfg, s, SipWrite(i)).log
  {
  }

  // ---- the first message of a call ----

  /** Whether the new call's turn has come to get a dump file. */
  predicate Sampled(cfg: Config, s: State, data: Payload) { cfg.methodFilter(MethodName(data)) && s.skip <= 1 }

  /** The file name that the template stands for. */
  function RenderedName(cfg: Config, p: Packet, q: Request): string {
    Rendering(cfg.template, RequestFields(q), At(cfg, p.time))
  }

  /** The template means one thing, and the request's fields fit into its expansion. */
  predicate Renderable(cfg: Config, q: Request) {
    Clean(cfg.template) && FieldTotal(cfg.template, RequestFields(q)) <= 255
  }

  /** What the table should remember of a request handled in state `s`. */
  function ExpectedRecord(cfg: Config, s: State, p: Packet, q: Request): Record
    requires p.body.Udp?
  {
    var sampled := Sampled(cfg, s, Seen(p.body));
    var name := RenderedName(cfg, p, q);
    Record(KeyOf(q.id), Stored(q.from.user), Stored(q.to.user), p.time, p.time,
           if sampled && p.openWorks then s.nextFile else 0, if sampled then CutName(name) else "")
  }

  lemma NewCallStory(cfg: Config, s: State, a: Action)
    requires Shaped(s) && a.NewCall? && Enabled(s, a)
    ensures var r := Apply(cfg, s, a);
            var i := FreeSlot(s.table, 0);
            var sampled := a.matched && s.skip <= 1;
            && i < |r.table| && r.table[i].isUsed && !r.table[i].hadBye && r.table[i].ipN == 0 && r.pos == s.pos
            && RecordOf(r.table[i]) ==
               Record(KeyOf(a.id), a.caller[..PEER_SIZE], a.callee[..PEER_SIZE], a.time, a.time,
                      if sampled && a.openWorks then s.nextFile else 0,
                      if sampled then CutName(a.name) else "")
            && (r.table[i].file != 0 ==> Opened(r.table[i].file, a.name) in r.log)
  {
    var i := FreeSlot(s.table, 0);
    RecycledLikeFresh(s.table, a.id, a.caller, a.callee, a.time);
    FillOk(ZERO, a.id, a.caller, a.callee, a.time);
  }

  /** A well-rendered request of a call that is not tracked, in a packet that is not media. */
  predicate NewRequest(cfg: Config, s: State, p: Packet, q: Request)
    requires p.body.Udp?
  {
    && p.body.payload == RequestText(q) && WellRendered(q) && IsSip(Seen(p.body))
    && !IsMedia(cfg, s.table, p.body.dst, p.body.dstPort, p.body)
    && !IsMedia(cfg, s.table, p.body.src, p.body.srcPort, p.body)
    && FindCall(s.table, KeyOf(q.id), 0) < 0
  }

  predicate Admitted(cfg: Config, q: Request) { cfg.numberFilter(q.from.user) || cfg.numberFilter(q.to.user) }

  lemma NewRequestRuns(cfg: Config, s: State, p: Packet, q: Request)
    requires p.body.Udp? && NewRequest(cfg, s, p, q)
    ensures OnPacket(cfg, s, p) ==
            if !Admitted(cfg, q) then s
            else OnCall(cfg, Apply(cfg, s, NewCallAction(cfg, q.id, p)), FreeSlot(s.table, 0), p.body)
  {
    RequestRead(q);
    assert CallFields(RequestText(q), q.id).from == q.from.user;
    assert CallFields(RequestText(q), q.id).to == q.to.user;
    if Admitted(cfg, q) {
      var a, i := NewCallAction(cfg, q.id, p), FreeSlot(s.table, 0);
      ApplyOptional(cfg, s, true, a, OnCallPlan(cfg, i, p.body));
      OnCallPlanRuns(cfg, Apply(cfg, s, a), i, p.body);
    }
  }

  /** The dump file's name is the template's one-pass rendering with the names and the
      Call-ID of the request. */
  lemma NameIsRendering(cfg: Config, q: Request, time: int)
    requires WellRendered(q)
    requires Renderable(cfg, q)
    ensures FileName(cfg, RequestText(q), q.id, time) == Rendering(cfg.template, RequestFields(q), At(cfg, time))
  {
    RequestRead(q);
    FitsInBuffer(cfg.template, RequestFields(q));
    TwoPassesMeanOne(cfg.template, RequestFields(q), At(cfg, time));
  }

  /** What the table stores of a name is its first 16 characters. */
  lemma StoredIsCut(user: string)
    requires NUL !in user
    ensures CString(Stored(user)) == if |user| > PEER_SIZE then user[..PEER_SIZE] else user
  {
    if |user| >= PEER_SIZE {
      assert Stored(user) == user[..PEER_SIZE];
      CStringWhole(user[..PEER_SIZE]);
      assert |user| == PEER_SIZE ==> user[..PEER_SIZE] == user;
    } else {
      var rest := Nuls(PEER_SIZE - |user| - 1);
      assert Stored(user) == user + [NUL] + rest;
      CStringOfTerminated(user, rest);
    }
  }

  /** The file name is not rendered from what the table stores: it differs from that
      rendering exactly when the template shows a name longer than 16 characters. */
  lemma FileNameIsUncutIff(cfg: Config, q: Request, time: int)
    requires WellRendered(q)
    requires Renderable(cfg, q)
    ensures Cut(RequestFields(q), PEER_SIZE) ==
            Fields(CString(Stored(q.from.user)), CString(Stored(q.to.user)), q.id)
    ensures FileName(cfg, RequestText(q), q.id, time) !=
            Rendering(cfg.template, Cut(RequestFields(q), PEER_SIZE), At(cfg, time))
            <==> ShowsLongName(cfg.template, RequestFields(q), 16)
  {
    StoredIsCut(q.from.user);
    StoredIsCut(q.to.user);
    NameIsRendering(cfg, q, time);
    CutMattersIff(cfg.template, RequestFields(q), At(cfg, time), PEER_SIZE);
  }

  /** The request has become a call, in the first slot unused before: its record, its
      open file, the write to it, its only flow, and its fragment key. */
  ghost predicate Started(cfg: Config, s: State, r: State, p: Packet, q: Request)
    requires p.body.Udp?
  {
    var i := FreeSlot(s.table, 0);
    && i < |r.table| && r.table[i].isUsed
    && RecordOf(r.table[i]) == ExpectedRecord(cfg, s, p, q)
    && (r.table[i].file != 0 ==> Opened(r.table[i].file, RenderedName(cfg, p, q)) in r.log)
    && (r.table[i].file != 0 ==> Wrote(Signalling, r.table[i].file, s.pos) in r.log)
    && (BodyReadable(q) ==> TracksOnly(r.table[i], AnnouncedBy(cfg, q)))
    && (p.body.first.Some? ==> Lookup(r.frags, p.body.first.value) == r.table[i].file)
  }

  /** The new slot, before the request is handled as a message of it. */
  lemma AddedForRequest(cfg: Config, s: State, p: Packet, q: Request)
    requires Shaped(s) && p.body.Udp? && NewRequest(cfg, s, p, q) && Admitted(cfg, q)
    requires Renderable(cfg, q)
    ensures var r := Apply(cfg, s, NewCallAction(cfg, q.id, p));
            var i := FreeSlot(s.table, 0);
            && i < |r.table| && r.table[i].isUsed && r.table[i].ipN == 0 && r.pos == s.pos
            && RecordOf(r.table[i]) == ExpectedRecord(cfg, s, p, q)
            && (r.table[i].file != 0 ==> Opened(r.table[i].file, RenderedName(cfg, p, q)) in r.log)
  {
    RequestRead(q);
    NameIsRendering(cfg, q, p.time);
    NewCallStory(cfg, s, NewCallAction(cfg, q.id, p));
  }

  /** Users and a Call-ID of letters, digits and the marks that stay stand in the file
      name as they are, where the template has its fields. */
  lemma PlainNamesShow(cfg: Config, p: Packet, q: Request)
    ensures AllStay(q.from.user) && AllStay(q.to.user) && AllStay(q.id) ==>
              RenderedName(cfg, p, q) ==
              Verbatim(cfg.template, q.from.user, q.to.user, q.id, At(cfg, p.time))
  {
    PlainFieldsShow(cfg.template, RequestFields(q), At(cfg, p.time));
  }

  // ---- caller and callee of any rendered message ----

  /** The name under a long header name or, if that gives none, under the short one. */
  function NameUnder(hs: seq<Header>, long: string, short: string): string {
    var first, second := UserUnder(hs, long), UserUnder(hs, short);
    if first.Some? then first.value else if second.Some? then second.value else "empty"
  }

  function UserUnder(hs: seq<Header>, name: string): Option<string> {
    if FirstValue(hs, name).Some? then PeerUser(FirstValue(hs, name).value) else None
  }

  lemma {:induction false} CStringUpTo(s: string, rest: string)
    ensures CString(s + [NUL] + rest) == CString(s)
  {
    if s == "" {
      assert s + [NUL] + rest == [NUL] + rest;
    } else {
      assert (s + [NUL] + rest)[1..] == s[1..] + [NUL] + rest;
      CStringUpTo(s[1..], rest);
    }
  }

  lemma OverwrittenReads(buf: string, text: string)
    ensures CString(Overwrite(buf, text)) == CString(text)
  {
    CStringUpTo(text, if |text| < |buf| then buf[|text| + 1..] else "");
  }

  lemma NameBufferIs(data: string, hs: seq<Header>, long: string, short: string)
    requires TagText(data, Tag(long)) == FirstValue(hs, long) && TagText(data, Tag(short)) == FirstValue(hs, short)
    ensures CString(NameBuffer(data, Tag(long), Tag(short))) == CString(NameUnder(hs, long, short))
  {
    var first := Overwrite(Nuls(NAME_SIZE), PeerText(data, Tag(long)));
    assert PeerUser("") == None;
    OverwrittenReads(Nuls(NAME_SIZE), PeerText(data, Tag(long)));
    OverwrittenReads(first, PeerText(data, Tag(short)));
  }

  /** In any rendered message, the caller stands under `From` or else `f`, the callee
      under `To` or else `t`. */
  lemma NamesAre(startLine: string, hs: seq<Header>, body: string)
    requires NoEol(startLine) && forall h :: h in hs ==> WellFormed(h)
    requires OnlyInHeaders(startLine, body, "From") && OnlyInHeaders(startLine, body, "f")
    requires OnlyInHeaders(startLine, body, "To") && OnlyInHeaders(startLine, body, "t")
    ensures CString(Caller(Message(startLine, hs, body))) == CString(NameUnder(hs, "From", "f"))
    ensures CString(Callee(Message(startLine, hs, body))) == CString(NameUnder(hs, "To", "t"))
  {
    var data := Message(startLine, hs, body);
    assert Tag("From") == "From:" && Tag("f") == "f:" && Tag("To") == "To:" && Tag("t") == "t:";
    MessageRoundTrip(startLine, hs, body, "From");
    MessageRoundTrip(startLine, hs, body, "f");
    MessageRoundTrip(startLine, hs, body, "To");
    MessageRoundTrip(startLine, hs, body, "t");
    NameBufferIs(data, hs, "From", "f");
    NameBufferIs(data, hs, "To", "t");
  }

  /** From a request's text to its recorded call. An admitted request takes the first
      unused slot, which then holds its Call-ID, its caller and callee and the name
      rendered from them; if its turn has come and the file opens, the request is
      written to it, and the pair that its body announces is the call's only flow. A
      request that is not admitted leaves no trace. */
  lemma RequestBecomesCall(cfg: Config, s: State, p: Packet, q: Request)
    requires Shaped(s) && p.body.Udp? && NewRequest(cfg, s, p, q)
    requires Renderable(cfg, q)
    ensures !Admitted(cfg, q) ==> OnPacket(cfg, s, p) == s
    ensures Admitted(cfg, q) ==>
              Started(cfg, s, OnPacket(cfg, s, p), p, q)
  {
    NewRequestRuns(cfg, s, p, q);
    if Admitted(cfg, q) {
      AddedForRequest(cfg, s, p, q);
      MessageStory(cfg, Apply(cfg, s, NewCallAction(cfg, q.id, p)), FreeSlot(s.table, 0), p.body);
      if BodyReadable(q) {
        AnnouncedIsRendered(cfg, q);
      }
    }
  }

  // ---- in a capture ----

  /** The same at any point of any capture; the call's file is then one to which
      nothing was written before. */
  lemma RequestStartsCall(cfg: Config, ps: seq<Packet>, p: Packet, q: Request)
    requires p.body.Udp?
    ensures var s, r := Before(cfg, ps, p), Run(cfg, ps + [p]);
            NewRequest(cfg, s, p, q) && Renderable(cfg, q) ==>
              if Admitted(cfg, q) then Started(cfg, s, r, p, q) else r == s.(pos := s.pos + 1)
    ensures var s := Before(cfg, ps, p); forall e :: e in s.log && e.Wrote? ==> e.file < s.nextFile
  {
    var s0, s := Run(cfg, ps), Before(cfg, ps, p);
    RunShaped(cfg, ps);
    RunKnowsFiles(cfg, ps);
    ShapeKept(cfg, s0, Sweep(p.time));
    SweepFirstWritesNothing(cfg, s0, p.time);
    assert (ps + [p])[..|ps + [p]| - 1] == ps;
    StepIs(cfg, s0, p);
    if NewRequest(cfg, s, p, q) && Renderable(cfg, q) {
      RequestBecomesCall(cfg, s, p, q);
    }
  }

  /** A media packet of the call is wanted: the call has a file and, when only telephone
      events are, the packet's second byte is below 128 and is the call's number. */
  predicate Wanted(cfg: Config, s: Slot, second: char) {
    && s.file != 0
    && match cfg.rtpSave
       case SaveNone => false
       case SaveRtp => true
       case SaveRtpRtcp => true
       case SaveRtpEvent => second as int % 256 < 128 && second as int % 256 == s.rtpmapEvent
  }

  /** Everything that a media packet found for flow (i, k) does: the flow takes its SSRC
      and, if it is wanted, it is counted, sets the idle clock and is written. */
  function AfterMedia(cfg: Config, s: State, i: nat, k: nat, ssrc: Ssrc, time: int, second: char): State
    requires i < |s.table| && k < MAX_FLOWS
  {
    var slot: Slot := s.table[i].(ssrc := s.table[i].ssrc[k := ssrc]);
    var log := s.log + [Attributed(i, k, ssrc)];
    if Wanted(cfg, slot, second) then
      s.(table := s.table[i := slot.(packets := slot.packets + 1, lastTime := time)],
         log := log + [Recorded(i, time), Wrote(Media, slot.file, s.pos)], pos := s.pos + 1)
    else s.(table := s.table[i := slot], log := log, pos := s.pos + 1)
  }

  lemma WantedIs(cfg: Config, s: Slot, second: char)
    requires cfg.rtpSave != SaveNone
    ensures Records(cfg, s, SignedByte(second)) <==> Wanted(cfg, s, second)
  {
  }

  /** A media action, and the end of its packet. */
  lemma MediaActionIs(cfg: Config, s: State, addr: Addr, port: Port, p: Packet, i: nat, k: nat)
    requires p.body.Udp? && cfg.rtpSave != SaveNone
    requires FindMedia(s.table, addr, FlowPort(cfg, port), SsrcOf(cfg, p.body), 0) == Hit(i, k)
    ensures Apply(cfg, Apply(cfg, s, MediaAction(cfg, addr, port, p)), Tick) ==
            AfterMedia(cfg, s, i, k, SsrcOf(cfg, p.body), p.time, Seen(p.body)[1])
  {
    var ssrc, second := SsrcOf(cfg, p.body), Seen(p.body)[1];
    var slot: Slot := s.table[i].(ssrc := s.table[i].ssrc[k := ssrc]);
    WantedIs(cfg, slot, second);
    assert Attribute(s.table, Hit(i, k), ssrc) == s.table[i := slot];
    var counted: Slot := slot.(packets := slot.packets + 1, lastTime := p.time);
    assert s.table[i := slot][i := counted] == s.table[i := counted];
  }

  /** A live call tracks the pair in flow (i, k), and no lower slot would take the packet. */
  ghost predicate Claims(t: Table, i: nat, k: nat, addr: Addr, port: Port, ssrc: Ssrc) {
    && i < |t| && !t[i].hadBye && Tracks(t[i], k, addr, port)
    && forall j: nat, m: nat :: j < i ==> !EligibleAt(t, j, m, addr, port, ssrc)
  }

  lemma ClaimedIsFound(t: Table, i: nat, k: nat, addr: Addr, port: Port, ssrc: Ssrc)
    requires TableOk(t) && Claims(t, i, k, addr, port, ssrc)
    ensures FindMedia(t, addr, port, ssrc, 0) == Hit(i, k)
  {
    ScanFindsLiveSlots(t, addr, port, ssrc);
    assert EligibleAt(t, i, k, addr, port, ssrc);
    assert SlotOk(t[i]);
  }

  /** A packet to a pair that a live call tracks, and no lower slot claims: it is
      attributed to that flow and, if wanted, written to that call's file, counted, and
      the call's idle clock set; nothing else happens. The odd port above a tracked even
      one counts as tracked when RTCP is saved. */
  lemma TrackedMediaIsRecorded(cfg: Config, ps: seq<Packet>, p: Packet, i: nat, k: nat)
    requires p.body.Udp? && cfg.rtpSave != SaveNone
    requires Claims(Before(cfg, ps, p).table, i, k, p.body.dst, FlowPort(cfg, p.body.dstPort), SsrcOf(cfg, p.body))
    ensures Run(cfg, ps + [p]) ==
            AfterMedia(cfg, Before(cfg, ps, p), i, k, SsrcOf(cfg, p.body), p.time, Seen(p.body)[1])
  {
    var s := Before(cfg, ps, p);
    RunShaped(cfg, ps);
    ShapeKept(cfg, Run(cfg, ps), Sweep(p.time));
    ClaimedIsFound(s.table, i, k, p.body.dst, FlowPort(cfg, p.body.dstPort), SsrcOf(cfg, p.body));
    MediaActionIs(cfg, s, p.body.dst, p.body.dstPort, p, i, k);
    assert (ps + [p])[..|ps + [p]| - 1] == ps;
    MediaStepIs(cfg, Run(cfg, ps), p);
  }

  /** The same for a packet from such a pair, if its destination finds nothing. */
  lemma TrackedSourceIsRecorded(cfg: Config, ps: seq<Packet>, p: Packet, i: nat, k: nat)
    requires p.body.Udp? && cfg.rtpSave != SaveNone
    requires var t, ssrc := Before(cfg, ps, p).table, SsrcOf(cfg, p.body);
             && FindMedia(t, p.body.dst, FlowPort(cfg, p.body.dstPort), ssrc, 0) == Miss
             && Claims(t, i, k, p.body.src, FlowPort(cfg, p.body.srcPort), ssrc)
    ensures Run(cfg, ps + [p]) ==
            AfterMedia(cfg, Before(cfg, ps, p), i, k, SsrcOf(cfg, p.body), p.time, Seen(p.body)[1])
  {
    var s := Before(cfg, ps, p);
    RunShaped(cfg, ps);
    ShapeKept(cfg, Run(cfg, ps), Sweep(p.time));
    ClaimedIsFound(s.table, i, k, p.body.src, FlowPort(cfg, p.body.srcPort), SsrcOf(cfg, p.body));
    MediaActionIs(cfg, s, p.body.src, p.body.srcPort, p, i, k);
    assert (ps + [p])[..|ps + [p]| - 1] == ps;
    MediaStepIs(cfg, Run(cfg, ps), p);
  }

  // ---- the SSRC ----

  /** A number in four bytes, the highest first. */
  function Bytes(x: Ssrc): (r: string)
    ensures |r| == 4
  {
    [(x / 0x100_0000) as char, (x / 0x1_0000 % 0x100) as char, (x / 0x100 % 0x100) as char, (x % 0x100) as char]
  }

  lemma DropByte(x: Ssrc)
    ensures x / 0x1_0000 == x / 0x100 / 0x100
  {
  }

  lemma DropTwo(x: Ssrc)
    ensures x / 0x100_0000 == x / 0x1_0000 / 0x100
  {
  }

  lemma Base256(x: Ssrc)
    ensures ((x / 0x100_0000 * 256 + x / 0x1_0000 % 0x100) * 256 + x / 0x100 % 0x100) * 256 + x % 0x100 == x
  {
    var x1, x2, x3 := x / 0x100, x / 0x1_0000, x / 0x100_0000;
    DropByte(x);
    DropTwo(x);
    assert x == x1 * 256 + x % 0x100 && x1 == x2 * 256 + x1 % 0x100 && x2 == x3 * 256 + x2 % 0x100;
  }

  /** A byte goes into a character and back. */
  lemma ByteOfChar(c: char, b: int)
    requires 0 <= b < 0x100 && c == b as char
    ensures c as int % 256 == b
  {
  }

  lemma BytesRead(data: Payload, at: nat, x: Ssrc)
    requires at + 4 <= LEAST_PAYLOAD && data[at..at + 4] == Bytes(x)
    ensures BigEndian32(data, at) == x
  {
    var b := data[at..at + 4];
    assert b[0] == data[at] && b[1] == data[at + 1] && b[2] == data[at + 2] && b[3] == data[at + 3];
    ByteOfChar(b[0], x / 0x100_0000);
    ByteOfChar(b[1], x / 0x1_0000 % 0x100);
    ByteOfChar(b[2], x / 0x100 % 0x100);
    ByteOfChar(b[3], x % 0x100);
    Base256(x);
  }

  /** The SSRC is what stands in bytes 8 to 11 of the payload or, when RTCP is saved and
      both ports are odd, in bytes 4 to 7. */
  lemma SsrcRoundTrip(cfg: Config, p: Body, head: string, x: Ssrc, rest: string)
    requires p.Udp? && p.payload == head + Bytes(x) + rest
    requires |head| == if cfg.rtpSave == SaveRtpRtcp && p.srcPort % 2 == 1 && p.dstPort % 2 == 1 then 4 else 8
    ensures SsrcOf(cfg, p) == x
  {
    var data, n := Seen(p), |head|;
    assert data == head + Bytes(x) + (rest + p.past);
    assert data[n..n + 4] == Bytes(x);
    BytesRead(data, n, x);
  }
}
