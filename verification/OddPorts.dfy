/** RTCP is matched through the even port below it, so that a pair announced with an odd
    port, which is tracked as it was announced, is never matched in that mode. */
module OddPorts {
  import opened Slots
  import opened Machine
  import opened Captures
  import opened TableShape
  import opened SsrcSticky
  import opened WholeRuns
  import opened CallStory
  import opened MediaSteps

  predicate Odd(port: Port) { port % 2 == 1 }

  /** Flow (i, k) is the only one that tracks the pair or the pair it is looked up by. */
  ghost predicate OnlyFlow(cfg: Config, t: Table, i: nat, k: nat, addr: Addr, port: Port) {
    forall j: nat, m: nat :: j < |t| && (j, m) != (i, k) ==>
      !Tracks(t[j], m, addr, port) && !Tracks(t[j], m, addr, FlowPort(cfg, port))
  }

  /** A live call's pair is matched by its own packets if and only if the port is even or
      RTCP is not saved. */
  lemma TrackedPairIsMatchedIff(cfg: Config, t: Table, i: nat, k: nat, addr: Addr, port: Port, ssrc: Ssrc)
    requires i < |t| && !t[i].hadBye && Tracks(t[i], k, addr, port) && OnlyFlow(cfg, t, i, k, addr, port)
    ensures FindMedia(t, addr, FlowPort(cfg, port), ssrc, 0) == Hit(i, k) <==>
            !(cfg.rtpSave == SaveRtpRtcp && Odd(port))
    ensures FindMedia(t, addr, FlowPort(cfg, port), ssrc, 0) ==
            if cfg.rtpSave == SaveRtpRtcp && Odd(port) then Miss else Hit(i, k)
  {
    var h := FindMedia(t, addr, FlowPort(cfg, port), ssrc, 0);
    if cfg.rtpSave == SaveRtpRtcp && Odd(port) {
      assert FlowPort(cfg, port) == port - 1;
      assert forall j: nat, m: nat :: !EligibleAt(t, j, m, addr, FlowPort(cfg, port), ssrc);
    } else {
      assert FlowPort(cfg, port) == port;
      assert EligibleAt(t, i, k, addr, port, ssrc);
      assert h.Hit? && Tracks(t[h.slot], h.flow, addr, port);
    }
  }

  // ---- over captures ----

  /** In that mode media is looked up by even ports only. */
  predicate EvenMedia(a: Action) { a.MediaIn? ==> !Odd(a.port) }

  lemma DispatchIsEven(cfg: Config, t: Table, p: Packet)
    requires cfg.rtpSave == SaveRtpRtcp
    ensures forall a :: a in Dispatch(cfg, t, p) ==> EvenMedia(a)
  {
    DispatchMedia(cfg, t, p);
    forall a | ByAddress(cfg, p, a)
      ensures EvenMedia(a)
    {
      ByAddressIsEven(cfg, p, a);
    }
  }

  /** Nothing recorded: the call is as idle as if nothing had come since its creation. */
  predicate Unrecorded(s: Slot) { s.packets == 0 && s.lastTime == s.firstTime }

  /** All the call's flows have odd ports. */
  predicate OnlyOdd(s: Slot) { forall k :: 0 <= k < s.ipN && k < MAX_FLOWS ==> Odd(s.port[k]) }

  ghost predicate OddUnrecorded(s: State) {
    && Shaped(s)
    && forall i :: 0 <= i < |s.table| && OnlyOdd(s.table[i]) ==> Unrecorded(s.table[i])
  }

  lemma NewCallUnrecorded(cfg: Config, s: State, a: Action)
    requires OddUnrecorded(s) && a.NewCall? && Enabled(s, a)
    ensures var r := Apply(cfg, s, a);
            forall i :: 0 <= i < |r.table| && OnlyOdd(r.table[i]) ==> Unrecorded(r.table[i])
  {
    var r := Apply(cfg, s, a);
    var idx := FreeSlot(s.table, 0);
    RecycledLikeFresh(s.table, a.id, a.caller, a.callee, a.time);
    assert Unrecorded(r.table[idx]);
    forall i | 0 <= i < |r.table| && i != idx
      ensures r.table[i] == s.table[i]
    {
    }
  }

  lemma MediaUnrecorded(cfg: Config, s: State, a: Action)
    requires OddUnrecorded(s) && a.MediaIn? && Enabled(s, a) && !Odd(a.port)
    ensures var r := Apply(cfg, s, a);
            forall i :: 0 <= i < |r.table| && OnlyOdd(r.table[i]) ==> Unrecorded(r.table[i])
  {
    var r := Apply(cfg, s, a);
    var h := FindMedia(s.table, a.addr, a.port, a.ssrc, 0);
    assert r.table[h.slot].port[h.flow] == a.port && h.flow < r.table[h.slot].ipN;
    assert !OnlyOdd(r.table[h.slot]);
    assert forall i :: 0 <= i < |r.table| && i != h.slot ==> r.table[i] == s.table[i];
  }

  lemma OfferUnrecorded(s: Slot, addr: Addr, port: Port)
    requires s.ipN <= MAX_FLOWS
    ensures OnlyOdd(AddFlow(s, addr, port)) ==> OnlyOdd(s)
    ensures Unrecorded(AddFlow(s, addr, port)) == Unrecorded(s)
  {
    var r := AddFlow(s, addr, port);
    assert forall k :: 0 <= k < s.ipN && k < MAX_FLOWS ==> r.port[k] == s.port[k];
  }

  lemma OthersUnrecorded(cfg: Config, s: State, a: Action)
    requires OddUnrecorded(s) && !a.NewCall? && !a.MediaIn?
    ensures var r := Apply(cfg, s, a);
            forall i :: 0 <= i < |r.table| && OnlyOdd(r.table[i]) ==> Unrecorded(r.table[i])
  {
    if a.Offer? && Enabled(s, a) {
      OfferUnrecorded(s.table[a.slot], a.addr, a.port);
    } else {
      var r := Apply(cfg, s, a);
      assert |r.table| == |s.table|;
      forall i | 0 <= i < |r.table|
        ensures r.table[i] == ZERO || (r.table[i].ipN == s.table[i].ipN && r.table[i].port == s.table[i].port
                                       && Unrecorded(r.table[i]) == Unrecorded(s.table[i]))
      {
      }
    }
  }

  lemma OddKept(cfg: Config, s: State, a: Action)
    requires OddUnrecorded(s) && EvenMedia(a)
    ensures OddUnrecorded(Apply(cfg, s, a))
  {
    ShapeKept(cfg, s, a);
    if Enabled(s, a) {
      if a.NewCall? {
        NewCallUnrecorded(cfg, s, a);
      } else if a.MediaIn? {
        MediaUnrecorded(cfg, s, a);
      } else {
        OthersUnrecorded(cfg, s, a);
      }
    }
  }

  lemma OddStep(cfg: Config, s: State, p: Packet)
    requires cfg.rtpSave == SaveRtpRtcp && OddUnrecorded(s)
    ensures OddUnrecorded(Step(cfg, s, p))
  {
    var even := (a: Action) => EvenMedia(a);
    forall s, a | OddUnrecorded(s) && even(a)
      ensures OddUnrecorded(Apply(cfg, s, a))
    {
      OddKept(cfg, s, a);
    }
    var s1 := SweepFirst(cfg, s, p.time);
    OddKept(cfg, s, Sweep(p.time));
    DispatchIsEven(cfg, s1.table, p);
    KeptByActions(cfg, s => OddUnrecorded(s), even, s1, Dispatch(cfg, s1.table, p));
    OddKept(cfg, ApplyAll(cfg, s1, Dispatch(cfg, s1.table, p)), Tick);
  }

  /** After any capture in that mode, a call all of whose flows have odd ports has no
      media recorded, however much was sent, and its idle clock stands at its creation. */
  lemma {:induction false} OddFlowsRecordNothing(cfg: Config, ps: seq<Packet>)
    requires cfg.rtpSave == SaveRtpRtcp
    ensures var t := Run(cfg, ps).table;
            forall i :: 0 <= i < |t| && OnlyOdd(t[i]) ==> t[i].packets == 0 && t[i].lastTime == t[i].firstTime
    ensures OddUnrecorded(Run(cfg, ps))
    decreases |ps|
  {
    if ps != [] {
      OddFlowsRecordNothing(cfg, ps[..|ps| - 1]);
      OddStep(cfg, Run(cfg, ps[..|ps| - 1]), ps[|ps| - 1]);
    }
  }

  /** So the first sweep more than 300 s after its creation ends it. */
  lemma OddCallExpires(cfg: Config, ps: seq<Packet>, p: Packet, i: nat)
    requires cfg.rtpSave == SaveRtpRtcp
    requires i < |Run(cfg, ps).table| && Run(cfg, ps).table[i].isUsed && OnlyOdd(Run(cfg, ps).table[i])
    requires SweepDue(Run(cfg, ps), p.time) && p.time - Run(cfg, ps).table[i].firstTime > 300
    ensures Before(cfg, ps, p).table[i] == ZERO
  {
    OddFlowsRecordNothing(cfg, ps);
  }

  // ---- attributions ----

  /** What the events since `s0` attribute, they attribute to flows with even ports. */
  ghost predicate EvenAttributions(t: Table, more: seq<Event>) {
    forall e :: e in more && e.Attributed? ==> e.slot < |t| && e.flow < MAX_FLOWS && !Odd(t[e.slot].port[e.flow])
  }

  lemma ActionAttributesEven(cfg: Config, s: State, a: Action)
    requires EvenMedia(a)
    ensures EvenAttributions(s.table, EventsOf(cfg, s, a))
  {
    if !a.MediaIn? {
      OthersAttributeNothing(cfg, s, a);
    }
  }

  lemma ByAddressIsEven(cfg: Config, p: Packet, a: Action)
    requires cfg.rtpSave == SaveRtpRtcp && ByAddress(cfg, p, a)
    ensures EvenMedia(a)
  {
  }

  lemma MediaIsEven(cfg: Config, s: State, p: Packet, more: seq<Event>)
    requires cfg.rtpSave == SaveRtpRtcp && FromMediaAction(cfg, s, p, more)
    ensures EvenAttributions(s.table, more)
  {
    if !NoMediaEvents(more) {
      var a :| ByAddress(cfg, p, a) && forall e :: e in more && IsMediaEvent(e) ==> e in EventsOf(cfg, s, a);
      ByAddressIsEven(cfg, p, a);
      ActionAttributesEven(cfg, s, a);
    }
  }

  /** In that mode no packet of any capture is attributed to a flow with an odd port. */
  lemma NoOddAttribution(cfg: Config, ps: seq<Packet>, p: Packet)
    requires cfg.rtpSave == SaveRtpRtcp
    ensures Run(cfg, ps).log <= Run(cfg, ps + [p]).log
    ensures EvenAttributions(Before(cfg, ps, p).table, Since(Run(cfg, ps), Run(cfg, ps + [p])))
  {
    var s, s1 := Run(cfg, ps), Before(cfg, ps, p);
    assert (ps + [p])[..|ps + [p]| - 1] == ps;
    StepMediaEvents(cfg, s, p);
    MediaIsEven(cfg, s1, p, Since(s, Run(cfg, ps + [p])));
  }

  /** A packet sent to a pair that a live call tracks, and nothing else claims, is
      attributed to that flow if and only if the port is even or RTCP is not saved. */
  lemma SentToTrackedPairIff(cfg: Config, ps: seq<Packet>, p: Packet, i: nat, k: nat)
    requires p.body.Udp? && cfg.rtpSave != SaveNone
    requires var t := Before(cfg, ps, p).table;
             i < |t| && !t[i].hadBye && Tracks(t[i], k, p.body.dst, p.body.dstPort)
             && OnlyFlow(cfg, t, i, k, p.body.dst, p.body.dstPort)
    ensures Run(cfg, ps).log <= Run(cfg, ps + [p]).log
    ensures Attributed(i, k, SsrcOf(cfg, p.body)) in Since(Run(cfg, ps), Run(cfg, ps + [p])) <==>
            !(cfg.rtpSave == SaveRtpRtcp && Odd(p.body.dstPort))
  {
    var s, s1 := Run(cfg, ps), Before(cfg, ps, p);
    if cfg.rtpSave == SaveRtpRtcp && Odd(p.body.dstPort) {
      NoOddAttribution(cfg, ps, p);
    } else {
      SweepHasNoMedia(cfg, s, p.time);
      assert FlowPort(cfg, p.body.dstPort) == p.body.dstPort;
      TrackedMediaIsRecorded(cfg, ps, p, i, k);
      assert s1.log <= Run(cfg, ps + [p]).log;
      SinceJoins(s, s1, Run(cfg, ps + [p]));
      assert Run(cfg, ps + [p]).log[|s1.log|] == Attributed(i, k, SsrcOf(cfg, p.body));
    }
  }
}
