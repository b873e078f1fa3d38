/** Which packets add a call to the table: the method has no say in it. */
module CallCreation {
  import opened Slots
  import opened Sip
  import opened SipBytes
  import opened Machine
  import opened Captures
  import opened FileSplit
  import opened SsrcSticky
  import opened WholeRuns

  ghost predicate HasAdded(more: seq<Event>) { exists e :: e in more && e.Added? }

  lemma ActionAddsIff(cfg: Config, s: State, a: Action)
    ensures HasAdded(EventsOf(cfg, s, a)) <==> a.NewCall? && Enabled(s, a)
  {
    if a.Sweep? {
      SweepWritesNothing(cfg, s.table, |s.table|, a.now);
    } else if a.NewCall? && Enabled(s, a) {
      assert EventsOf(cfg, s, a)[0] == Added(FreeSlot(s.table, 0), a.time);
    }
  }

  lemma HasAddedJoins(a: seq<Event>, b: seq<Event>)
    ensures HasAdded(a + b) <==> HasAdded(a) || HasAdded(b)
  {
    if HasAdded(a) {
      var e :| e in a && e.Added?;
      assert e in a + b;
    }
    if HasAdded(b) {
      var e :| e in b && e.Added?;
      assert e in a + b;
    }
  }

  lemma {:induction false} OthersAddNothing(cfg: Config, s: State, acts: seq<Action>)
    requires StartsNoCall(acts)
    ensures s.log <= ApplyAll(cfg, s, acts).log && !HasAdded(Since(s, ApplyAll(cfg, s, acts)))
    decreases |acts|
  {
    if acts != [] {
      assert acts[0] in acts;
      var s1 := Apply(cfg, s, acts[0]);
      LogIs(cfg, s, acts[0]);
      ActionAddsIff(cfg, s, acts[0]);
      OthersAddNothing(cfg, s1, acts[1..]);
      SinceJoins(s, s1, ApplyAll(cfg, s, acts));
      HasAddedJoins(Since(s, s1), Since(s1, ApplyAll(cfg, s, acts)));
    }
  }

  lemma PlanAddsIff(cfg: Config, s: State, acts: seq<Action>)
    requires StartsOnce(s, acts)
    ensures var r := ApplyAll(cfg, s, acts);
            s.log <= r.log && (HasAdded(Since(s, r)) <==> acts != [] && acts[0].NewCall?)
  {
    if acts != [] && acts[0].NewCall? {
      assert acts[0] in acts;
      var s1 := Apply(cfg, s, acts[0]);
      LogIs(cfg, s, acts[0]);
      ActionAddsIff(cfg, s, acts[0]);
      OthersAddNothing(cfg, s1, acts[1..]);
      SinceJoins(s, s1, ApplyAll(cfg, s, acts));
      HasAddedJoins(Since(s, s1), Since(s1, ApplyAll(cfg, s, acts)));
    } else {
      OthersAddNothing(cfg, s, acts);
    }
  }

  /** A SIP packet, not media, with a Call-ID that is not tracked and an admitted number. */
  ghost predicate StartsCall(cfg: Config, t: Table, p: Packet) {
    && p.body.Udp?
    && !IsMedia(cfg, t, p.body.dst, p.body.dstPort, p.body)
    && !IsMedia(cfg, t, p.body.src, p.body.srcPort, p.body)
    && LooksSip(Seen(p.body))
    && CallId(p.body.payload).Some? && FindCall(t, KeyOf(CallId(p.body.payload).value), 0) < 0
    && NumberMatches(cfg, p.body.payload)
  }

  lemma PlanStartsCallIff(cfg: Config, t: Table, p: Packet)
    ensures var acts := Dispatch(cfg, t, p);
            StartsCall(cfg, t, p) <==> acts != [] && acts[0].NewCall?
  {
    if p.body.Udp? {
      IsSipIff(Seen(p.body));
    }
    if p.body.Udp? && CallId(p.body.payload).Some? {
      var i := FindCall(t, KeyOf(CallId(p.body.payload).value), 0);
      if i >= 0 {
        OnCallOnUsedSlot(cfg, i, p.body);
        var acts := OnCallPlan(cfg, i, p.body);
        assert acts != [] ==> acts[0] in acts;
      }
    }
  }

  /** In every state, a packet adds a call if and only if, after its sweep, it is such
      a packet; its method does not matter. */
  lemma StepAddsIff(cfg: Config, s: State, p: Packet)
    ensures s.log <= Step(cfg, s, p).log
    ensures HasAdded(Since(s, Step(cfg, s, p))) <==> StartsCall(cfg, SweepFirst(cfg, s, p.time).table, p)
  {
    var s1 := SweepFirst(cfg, s, p.time);
    var acts := Dispatch(cfg, s1.table, p);
    SweepAddsNothing(cfg, s, p.time);
    DispatchStartsOnce(cfg, s1, p);
    PlanAddsIff(cfg, s1, acts);
    PlanStartsCallIff(cfg, s1.table, p);
    SinceJoins(s, s1, ApplyAll(cfg, s1, acts));
    HasAddedJoins(Since(s, s1), Since(s1, ApplyAll(cfg, s1, acts)));
    assert Step(cfg, s, p).log == ApplyAll(cfg, s1, acts).log;
  }

  lemma SweepAddsNothing(cfg: Config, s: State, time: int)
    ensures s.log <= SweepFirst(cfg, s, time).log && !HasAdded(Since(s, SweepFirst(cfg, s, time)))
  {
    LogIs(cfg, s, Sweep(time));
    ActionAddsIff(cfg, s, Sweep(time));
    assert Since(s, SweepFirst(cfg, s, time)) == if SweepDue(s, time) then EventsOf(cfg, s, Sweep(time)) else [];
  }

  /** A packet whose method does not match adds its call all the same; only an open
      attempt takes an added call and a matching method. */
  lemma MethodDecidesFileOnly(cfg: Config, s: State, p: Packet)
    ensures s.log <= Step(cfg, s, p).log
    ensures var t := SweepFirst(cfg, s, p.time).table;
            var matches := p.body.Udp? && cfg.methodFilter(MethodName(Seen(p.body)));
            var more := Since(s, Step(cfg, s, p));
            && (StartsCall(cfg, t, p) && !matches ==> HasAdded(more) && OpenAttempted !in more)
            && (OpenAttempted in more ==> HasAdded(more) && matches)
  {
    StepAddsIff(cfg, s, p);
    StepAttemptIff(cfg, s, p);
    PlanStartsCallIff(cfg, SweepFirst(cfg, s, p.time).table, p);
  }
}
