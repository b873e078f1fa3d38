/** The media part of a packet's step: everything that is attributed, recorded or written
    as media comes from one media action by the packet's destination or source. */
module MediaSteps {
  import opened Slots
  import opened Machine
  import opened Captures
  import opened FileSplit
  import opened SsrcSticky
  import opened WholeRuns

  predicate IsMediaEvent(e: Event) { e.Attributed? || e.Recorded? || (e.Wrote? && e.via == Media) }

  ghost predicate NoMedia(acts: seq<Action>) { forall a :: a in acts ==> !a.MediaIn? }

  ghost predicate NoMediaEvents(more: seq<Event>) { forall e :: e in more ==> !IsMediaEvent(e) }

  lemma StartsNoMedia(acts: seq<Action>)
    requires AllOnUsedSlot(acts) || (acts != [] && acts[0].NewCall? && AllOnUsedSlot(acts[1..]))
    ensures NoMedia(acts)
  {
    if acts != [] {
      assert forall a :: a in acts ==> a == acts[0] || a in acts[1..];
    }
  }

  /** The media action is by the packet's destination or by its source. */
  predicate ByAddress(cfg: Config, p: Packet, a: Action) {
    p.body.Udp?
    && (a == MediaAction(cfg, p.body.dst, p.body.dstPort, p) || a == MediaAction(cfg, p.body.src, p.body.srcPort, p))
  }

  lemma DispatchMedia(cfg: Config, t: Table, p: Packet)
    ensures var acts := Dispatch(cfg, t, p);
            NoMedia(acts) || (|acts| == 1 && ByAddress(cfg, p, acts[0]))
  {
    if p.body.Udp? {
      SipStartsOnce(cfg, t, p);
      StartsNoMedia(SipPlan(cfg, t, p));
    }
  }

  lemma OthersHaveNoMedia(cfg: Config, s: State, a: Action)
    requires !a.MediaIn?
    ensures NoMediaEvents(EventsOf(cfg, s, a))
  {
    if a.Sweep? {
      SweepWritesNothing(cfg, s.table, |s.table|, a.now);
    }
  }

  lemma {:induction false} PlanHasNoMedia(cfg: Config, s: State, acts: seq<Action>)
    requires NoMedia(acts)
    ensures s.log <= ApplyAll(cfg, s, acts).log && NoMediaEvents(Since(s, ApplyAll(cfg, s, acts)))
    decreases |acts|
  {
    if acts != [] {
      assert acts[0] in acts;
      var s1 := Apply(cfg, s, acts[0]);
      LogIs(cfg, s, acts[0]);
      OthersHaveNoMedia(cfg, s, acts[0]);
      PlanHasNoMedia(cfg, s1, acts[1..]);
      SinceJoins(s, s1, ApplyAll(cfg, s, acts));
    }
  }

  lemma SweepHasNoMedia(cfg: Config, s: State, time: int)
    ensures s.log <= SweepFirst(cfg, s, time).log && NoMediaEvents(Since(s, SweepFirst(cfg, s, time)))
  {
    LogIs(cfg, s, Sweep(time));
    OthersHaveNoMedia(cfg, s, Sweep(time));
    assert Since(s, SweepFirst(cfg, s, time)) == if SweepDue(s, time) then EventsOf(cfg, s, Sweep(time)) else [];
  }

  /** The media events among `more` are those of a media action of the packet in `s`. */
  ghost predicate FromMediaAction(cfg: Config, s: State, p: Packet, more: seq<Event>) {
    || NoMediaEvents(more)
    || exists a :: ByAddress(cfg, p, a) && forall e :: e in more && IsMediaEvent(e) ==> e in EventsOf(cfg, s, a)
  }

  lemma DispatchMediaEvents(cfg: Config, s: State, p: Packet)
    ensures var r := ApplyAll(cfg, s, Dispatch(cfg, s.table, p));
            s.log <= r.log && FromMediaAction(cfg, s, p, Since(s, r))
  {
    var acts := Dispatch(cfg, s.table, p);
    DispatchMedia(cfg, s.table, p);
    if NoMedia(acts) {
      PlanHasNoMedia(cfg, s, acts);
    } else {
      assert acts == [acts[0]];
      OneAction(cfg, s, acts[0]);
      LogIs(cfg, s, acts[0]);
    }
  }

  /** In every state, a packet's step has media events from one media action, in the state
      after the sweep, or none. */
  lemma StepMediaEvents(cfg: Config, s: State, p: Packet)
    ensures s.log <= Step(cfg, s, p).log
    ensures FromMediaAction(cfg, SweepFirst(cfg, s, p.time), p, Since(s, Step(cfg, s, p)))
  {
    var s1 := SweepFirst(cfg, s, p.time);
    var r := ApplyAll(cfg, s1, Dispatch(cfg, s1.table, p));
    SweepHasNoMedia(cfg, s, p.time);
    DispatchMediaEvents(cfg, s1, p);
    SinceJoins(s, s1, r);
    assert Step(cfg, s, p).log == r.log;
    FromLater(cfg, s1, p, Since(s, s1), Since(s1, r));
  }

  lemma FromLater(cfg: Config, s: State, p: Packet, a: seq<Event>, b: seq<Event>)
    requires NoMediaEvents(a) && FromMediaAction(cfg, s, p, b)
    ensures FromMediaAction(cfg, s, p, a + b)
  {
    if !NoMediaEvents(b) {
      var x :| ByAddress(cfg, p, x) && forall e :: e in b && IsMediaEvent(e) ==> e in EventsOf(cfg, s, x);
      assert forall e :: e in a + b && IsMediaEvent(e) ==> e in EventsOf(cfg, s, x);
    }
  }

  /** When no media is to be saved, no packet of any capture has media events. */
  lemma SaveNoneSavesNothing(cfg: Config, ps: seq<Packet>, p: Packet)
    requires cfg.rtpSave == SaveNone
    ensures Run(cfg, ps).log <= Run(cfg, ps + [p]).log
    ensures NoMediaEvents(Since(Run(cfg, ps), Run(cfg, ps + [p])))
  {
    var s, s1 := Run(cfg, ps), Before(cfg, ps, p);
    var acts := Dispatch(cfg, s1.table, p);
    assert (ps + [p])[..|ps + [p]| - 1] == ps;
    SipIsNoMedia(cfg, s1.table, p);
    SweepHasNoMedia(cfg, s, p.time);
    PlanHasNoMedia(cfg, s1, acts);
    SinceJoins(s, s1, ApplyAll(cfg, s1, acts));
    assert Step(cfg, s, p).log == ApplyAll(cfg, s1, acts).log;
  }

  lemma SipIsNoMedia(cfg: Config, t: Table, p: Packet)
    requires cfg.rtpSave == SaveNone
    ensures NoMedia(Dispatch(cfg, t, p))
  {
    if p.body.Udp? {
      SipStartsOnce(cfg, t, p);
      StartsNoMedia(SipPlan(cfg, t, p));
    }
  }
}
