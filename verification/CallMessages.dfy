/** Messages of tracked calls, requests and responses alike: what each does to its call,
    at any point of any capture. */
module CallMessages {
  import opened Text
  import opened StrLib
  import opened HeaderList
  import opened Sip
  import opened SipBytes
  import opened Slots
  import opened Machine
  import opened Captures
  import opened Dispatchers
  import opened TableShape
  import opened FlowTracking
  import opened WholeRuns
  import opened CallStory
  import opened Messages

  // ---- the flows ----

  /** The pairs that a call tracks after one more has been announced, or none. */
  function Taking(pairs: seq<Pair>, media: Option<Pair>): seq<Pair> {
    if media.Some? then Take(pairs, media.value) else pairs
  }

  /** Slot `i` of `r` tracks what it tracked in `s` and the announced pair. */
  ghost predicate Takes(s: State, r: State, i: nat, media: Option<Pair>) {
    && i < |s.table| && i < |r.table| && s.table[i].ipN <= MAX_FLOWS && r.table[i].ipN <= MAX_FLOWS
    && Pairs(r.table[i]) == Taking(Pairs(s.table[i]), media)
  }

  lemma QuietTakesNothing(cfg: Config, s: State, c: bool, a: Action, i: nat)
    requires OnUsedSlot(a) && !a.Offer? && i < |s.table| && s.table[i].ipN <= MAX_FLOWS
    ensures Takes(s, ApplyIf(cfg, s, c, a), i, None)
  {
  }

  lemma OfferTakes(cfg: Config, s: State, i: nat, x: Pair)
    requires i < |s.table| && s.table[i].isUsed && s.table[i].ipN <= MAX_FLOWS
    ensures Takes(s, Apply(cfg, s, Offer(i, x.0, x.1)), i, Some(x))
  {
    AddFlowTakes(s.table[i], x.0, x.1);
  }

  lemma TakesOn(s: State, s1: State, r: State, i: nat, media: Option<Pair>)
    requires (Takes(s, s1, i, media) && Takes(s1, r, i, None)) || (Takes(s, s1, i, None) && Takes(s1, r, i, media))
    ensures Takes(s, r, i, media)
  {
  }

  lemma SdpTakes(cfg: Config, s: State, i: nat, sdp: string)
    requires i < |s.table| && s.table[i].isUsed && s.table[i].ipN <= MAX_FLOWS
    ensures Takes(s, OnSdp(cfg, s, i, sdp), i, cfg.media(sdp))
  {
    var media := cfg.media(sdp);
    if media.Some? || !cfg.verbose {
      var event := RtpmapEvent(CString(sdp));
      var t38 := cfg.t38Only && Search(sdp, "udptl t38", 0) >= 0;
      var s1 := if media.Some? then Apply(cfg, s, Offer(i, media.value.0, media.value.1)) else s;
      var s2 := ApplyIf(cfg, s1, event != 0, SetEvent(i, event));
      if media.Some? {
        OfferTakes(cfg, s, i, media.value);
      }
      QuietTakesNothing(cfg, s1, event != 0, SetEvent(i, event), i);
      QuietTakesNothing(cfg, s2, t38, SetT38(i), i);
      TakesOn(s, s1, s2, i, media);
      TakesOn(s, s2, OnSdp(cfg, s, i, sdp), i, media);
    }
  }

  lemma MessageTakes(cfg: Config, s: State, i: nat, p: Body)
    requires p.Udp? && i < |s.table| && s.table[i].isUsed && s.table[i].ipN <= MAX_FLOWS
    ensures Takes(s, OnCall(cfg, s, i, p), i, Announced(cfg, p.payload))
  {
    var bye := MethodName(Seen(p)) == "BYE";
    var media := Announced(cfg, p.payload);
    var s1, s2 := ApplyIf(cfg, s, bye, Bye(i)), AfterSdp(cfg, s, i, p);
    var s3 := Apply(cfg, s2, SipWrite(i));
    QuietTakesNothing(cfg, s, bye, Bye(i), i);
    IfGrows(cfg, s, bye, Bye(i), i);
    if SdpBody(p.payload).Some? {
      SdpTakes(cfg, s1, i, SdpBody(p.payload).value);
      TakesOn(s, s1, s2, i, media);
    }
    QuietTakesNothing(cfg, s2, true, SipWrite(i), i);
    TakesOn(s, s2, s3, i, media);
    if p.first.Some? {
      QuietTakesNothing(cfg, s3, true, RecordFragment(i, p.first.value), i);
      TakesOn(s, s3, OnCall(cfg, s, i, p), i, media);
    }
  }

  // ---- over captures ----

  /** What a message does to its call, and to nothing else of the table. */
  ghost predicate Handled(cfg: Config, s: State, r: State, p: Body, i: nat, media: Option<Pair>)
    requires p.Udp?
  {
    && OnlyIn(s, r, i) && r.table[i].isUsed && RecordOf(r.table[i]) == RecordOf(s.table[i])
    && NotesOf(r.table[i]) == Noted(cfg, NotesOf(s.table[i]), p)
    && Takes(s, r, i, media)
    && (s.table[i].file != 0 ==> Wrote(Signalling, s.table[i].file, s.pos) in r.log)
    && (p.first.Some? ==> Lookup(r.frags, p.first.value) == s.table[i].file)
    && r.pos == s.pos + 1
  }

  /** At any point of any capture, a message of a tracked call is written to the call's
      file, notes what it tells, tracks the pair it announces as far as there is room,
      and leaves the call's record and all other calls alone. */
  lemma MessageIsHandled(cfg: Config, ps: seq<Packet>, p: Packet, i: nat)
    requires p.body.Udp?
    requires var t := Before(cfg, ps, p).table; MessageOf(cfg, t, p) == Some(i) && !Starts(cfg, t, p)
    ensures Handled(cfg, Before(cfg, ps, p), Run(cfg, ps + [p]), p.body, i, Announced(cfg, p.body.payload))
  {
    var s := Before(cfg, ps, p);
    BeforeIsShaped(cfg, ps, p);
    assert SlotOk(s.table[i]);
    assert (ps + [p])[..|ps + [p]| - 1] == ps;
    StepIs(cfg, Run(cfg, ps), p);
    MessageIs(cfg, s, p);
    OnCallNotes(cfg, s, i, p.body);
    MessageStory(cfg, s, i, p.body);
    MessageTakes(cfg, s, i, p.body);
  }

  // ---- rendered messages ----

  /** A message as it is rendered; of a response nothing but the Call-ID is looked at. */
  predicate Rendered(q: Request) {
    NoEol(q.startLine) && (forall h :: h in q.hs ==> WellFormed(h)) && Carries(q, "Call-ID", q.id)
  }

  /** A status line begins with the version, a request line with a method. */
  predicate HasStartLine(q: Request) {
    || (|q.startLine| >= 8 && q.startLine[..8] == "SIP/2.0 ")
    || exists n: nat :: n < 9 && n < |q.startLine| && q.startLine[n] == ' '
                        && forall j :: 0 <= j < n ==> IsUpper(q.startLine[j])
  }

  lemma StartLineIsSeen(p: Body, q: Request)
    requires p.Udp? && p.payload == RequestText(q) && HasStartLine(q)
    ensures LooksSip(Seen(p))
  {
    var line, data := q.startLine, Seen(p);
    assert forall j :: 0 <= j < |line| ==> data[j] == line[j];
    if |line| >= 8 && line[..8] == "SIP/2.0 " {
      assert data[..8] == line[..8];
    } else {
      var n: nat :| n < 9 && n < |line| && line[n] == ' ' && forall j :: 0 <= j < n ==> IsUpper(line[j]);
      assert BeginsMethod(data, n);
    }
  }

  lemma RenderedIsMessage(cfg: Config, s: State, p: Packet, q: Request, i: nat)
    requires Shaped(s) && p.body.Udp? && p.body.payload == RequestText(q) && Rendered(q) && HasStartLine(q)
    requires MediaSide(cfg, s.table, p.body).None?
    requires i < |s.table| && s.table[i].isUsed && SlotKey(s.table[i]) == KeyOf(q.id)
    ensures MessageOf(cfg, s.table, p) == Some(i) && !Starts(cfg, s.table, p)
  {
    HeaderRead(q, "Call-ID", q.id);
    assert Tag("Call-ID") == "Call-ID:";
    StartLineIsSeen(p.body, q);
    FindIsLookup(s.table, KeyOf(q.id));
  }

  /** At any point of any capture, a rendered response or request with the Call-ID of a
      tracked call, in a packet that is not media, is handled as a message of that call,
      with the pair that its body announces. */
  lemma RenderedIsHandled(cfg: Config, ps: seq<Packet>, p: Packet, q: Request, i: nat)
    requires p.body.Udp? && p.body.payload == RequestText(q) && Rendered(q) && HasStartLine(q)
    requires var t := Before(cfg, ps, p).table;
             && MediaSide(cfg, t, p.body).None?
             && i < |t| && t[i].isUsed && SlotKey(t[i]) == KeyOf(q.id)
    ensures var s, r := Before(cfg, ps, p), Run(cfg, ps + [p]);
            && Handled(cfg, s, r, p.body, i, Announced(cfg, RequestText(q)))
            && (BodyReadable(q) ==> Handled(cfg, s, r, p.body, i, AnnouncedBy(cfg, q)))
  {
    BeforeIsShaped(cfg, ps, p);
    RenderedIsMessage(cfg, Before(cfg, ps, p), p, q, i);
    MessageIsHandled(cfg, ps, p, i);
    if BodyReadable(q) {
      AnnouncedIsRendered(cfg, q);
    }
  }
}
