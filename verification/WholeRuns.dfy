/** The main results: what holds after every capture, for every configuration. */
module WholeRuns {
  import opened Text
  import opened Slots
  import opened Machine
  import opened Captures
  import opened TableShape
  import opened TableSize
  import opened Ownership
  import opened FileSplit
  import opened FragmentRouting
  import opened Sampling
  import opened FlowTracking
  import opened SsrcSticky
  import opened Expiry

  lemma AnythingIsCaused(ps: seq<Packet>)
    ensures forall p :: p in ps ==> Causes(AnyAction, p)
  {
  }

  // ---- the call table ----

  lemma RunShaped(cfg: Config, ps: seq<Packet>)
    ensures Shaped(Run(cfg, ps))
  {
    forall s, a | Shaped(s)
      ensures Shaped(Apply(cfg, s, a))
    {
      ShapeKept(cfg, s, a);
    }
    AnythingIsCaused(ps);
    KeptByRun(cfg, s => Shaped(s), AnyAction, Init(), ps);
  }

  /** After any capture the table is a map of calls: no two used slots share a key,
      and a lookup returns the key's slot or -1. */
  lemma CallsAreAMap(cfg: Config, ps: seq<Packet>, id: string)
    ensures UniqueKeys(Run(cfg, ps).table)
    ensures var t := Run(cfg, ps).table;
            FindCall(t, KeyOf(id), 0) == if KeyOf(id) in Calls(t) then Calls(t)[KeyOf(id)] else -1
    ensures var t := Run(cfg, ps).table;
            forall i :: 0 <= i < |t| && t[i].isUsed && SlotKey(t[i]) == KeyOf(id) ==> FindCall(t, KeyOf(id), 0) == i
  {
    RunShaped(cfg, ps);
    FindIsLookup(Run(cfg, ps).table, KeyOf(id));
  }

  /** After any capture unused slots are all zero, so a new call is in the same state
      whether its slot is recycled or fresh, and the media scan finds live slots only. */
  lemma ReuseLeavesNoTrace(cfg: Config, ps: seq<Packet>, id: string, caller: NameText, callee: NameText, time: int,
                           addr: Addr, port: Port, ssrc: Ssrc)
    ensures var t := Run(cfg, ps).table;
            && (forall i :: 0 <= i < |t| && !t[i].isUsed ==> t[i] == ZERO)
            && AddCall(t, id, caller, callee, time)[FreeSlot(t, 0)] == Fill(ZERO, id, caller, callee, time)
            && (FindMedia(t, addr, port, ssrc, 0).Hit? ==> t[FindMedia(t, addr, port, ssrc, 0).slot].isUsed)
  {
    RunShaped(cfg, ps);
    var t := Run(cfg, ps).table;
    RecycledLikeFresh(t, id, caller, callee, time);
    ScanFindsLiveSlots(t, addr, port, ssrc);
  }

  /** After any capture each call tracks the first four distinct pairs offered to it. */
  lemma FlowsAreFirstFour(cfg: Config, ps: seq<Packet>, i: nat)
    ensures var s := Run(cfg, ps);
            i < |s.table| && s.table[i].isUsed ==>
              s.table[i].ipN <= MAX_FLOWS && Pairs(s.table[i]) == FirstDistinct(Offers(s.log, i))
  {
    forall s, a | FlowsAreOffers(s)
      ensures FlowsAreOffers(Apply(cfg, s, a))
    {
      FlowsKept(cfg, s, a);
    }
    AnythingIsCaused(ps);
    KeptByRun(cfg, s => FlowsAreOffers(s), AnyAction, Init(), ps);
  }

  /** The most calls tracked at once after any packet of the capture. */
  function Peak(cfg: Config, ps: seq<Packet>): nat {
    if ps == [] then 0
    else
      var before := Peak(cfg, ps[..|ps| - 1]);
      var now := UsedCount(Run(cfg, ps).table);
      if before < now then now else before
  }

  lemma StepGrowsFull(cfg: Config, s: State, p: Packet)
    ensures GrownFull(Step(cfg, s, p), |s.table|)
  {
    var len := |s.table|;
    var notSweep := (a: Action) => !a.Sweep?;
    forall s, a | GrownFull(s, len) && notSweep(a)
      ensures GrownFull(Apply(cfg, s, a), len)
    {
      GrownFullKept(cfg, s, a, len);
    }
    var s1 := SweepFirst(cfg, s, p.time);
    DispatchFromPacket(cfg, s1.table, p);
    KeptByActions(cfg, s => GrownFull(s, len), notSweep, s1, Dispatch(cfg, s1.table, p));
  }

  /** The table's length is the high-water mark of concurrent calls. */
  lemma {:induction false} TableIsHighWaterMark(cfg: Config, ps: seq<Packet>)
    ensures |Run(cfg, ps).table| == Peak(cfg, ps)
    decreases |ps|
  {
    if ps != [] {
      var before := ps[..|ps| - 1];
      TableIsHighWaterMark(cfg, before);
      StepGrowsFull(cfg, Run(cfg, before), ps[|ps| - 1]);
      UsedCountBound(Run(cfg, ps).table);
    }
  }

  // ---- the files ----

  lemma RunOwnsFiles(cfg: Config, ps: seq<Packet>)
    ensures WritesOk(Run(cfg, ps))
  {
    forall s, a | WritesOk(s)
      ensures WritesOk(Apply(cfg, s, a))
    {
      WritesKept(cfg, s, a);
    }
    AnythingIsCaused(ps);
    KeptByRun(cfg, s => WritesOk(s), AnyAction, Init(), ps);
  }

  /** After any capture a slot that has a file is used, its file is open, and no other
      slot has it; and calls have only been written while their file was open. */
  lemma SlotsOwnOpenFiles(cfg: Config, ps: seq<Packet>)
    ensures var s := Run(cfg, ps);
            forall i :: 0 <= i < |s.table| && s.table[i].file != 0 ==>
              s.table[i].isUsed && IsOpen(s.log, s.table[i].file)
    ensures var s := Run(cfg, ps);
            forall i, j :: 0 <= i < j < |s.table| && s.table[i].file != 0 ==> s.table[i].file != s.table[j].file
    ensures WritesAreOpen(Run(cfg, ps).log)
  {
    RunOwnsFiles(cfg, ps);
    var s := Run(cfg, ps);
    forall i | 0 <= i < |s.table| && s.table[i].file != 0
      ensures IsOpen(s.log, s.table[i].file)
    {
      OwnedIsOpen(s, i);
    }
  }

  /** After any capture a file was opened at most once; it was closed exactly once if
      no slot owns it any more, and then either deleted or announced, not both. */
  lemma FileIsClosedOnce(cfg: Config, ps: seq<Packet>, f: Handle)
    ensures var s := Run(cfg, ps);
            && Times(s.log, Opening(f)) <= 1
            && Times(s.log, Closed(f)) == (if Times(s.log, Opening(f)) == 1 && !Owned(s.table, f) then 1 else 0)
            && Times(s.log, Deleting(f)) + Times(s.log, Announcing(f)) == Times(s.log, Closed(f))
  {
    RunOwnsFiles(cfg, ps);
    var s := Run(cfg, ps);
    assert FileHistory(s.table, s.nextFile, s.log, f);
  }

  /** A call of the table holds `f` and is recent even at time `now`. */
  ghost predicate HeldPast(t: Table, f: Handle, now: int, limit: int) {
    exists i :: 0 <= i < |t| && t[i].file == f && !Expires(t[i], now, limit)
  }

  lemma OwnedAfterSweep(t: Table, f: Handle, now: int, limit: int)
    requires f != 0
    ensures Owned(Swept(t, now, limit), f) <==> HeldPast(t, f, now, limit)
  {
    var r := Swept(t, now, limit);
    if Owned(r, f) {
      var i :| 0 <= i < |r| && r[i].file == f;
      assert t[i].file == f;
    }
    if HeldPast(t, f, now, limit) {
      var i :| 0 <= i < |t| && t[i].file == f && !Expires(t[i], now, limit);
      assert r[i].file == f;
    }
  }

  /** What the final sweep leaves open: the files of calls that are recent even at the
      largest 32-bit time. Every other opened file has then been closed once. */
  lemma FinalSweepLeaves(cfg: Config, ps: seq<Packet>, f: Handle)
    ensures var s := Run(cfg, ps);
            var r := Finish(cfg, s);
            Times(r.log, Opening(f)) == 1 ==>
              (Times(r.log, Closed(f)) == 0 <==> HeldPast(s.table, f, INT32_MAX, cfg.limit))
    ensures FilesOwned(Finish(cfg, Run(cfg, ps)))
  {
    RunOwnsFiles(cfg, ps);
    var s := Run(cfg, ps);
    var r := Finish(cfg, s);
    SweepKeepsFiles(cfg, s, INT32_MAX);
    assert FileHistory(r.table, r.nextFile, r.log, f);
    if f != 0 {
      OwnedAfterSweep(s.table, f, INT32_MAX, cfg.limit);
    }
  }

  ghost predicate TimesBelow(s: State, bound: int) {
    forall i :: 0 <= i < |s.table| && s.table[i].isUsed ==> s.table[i].lastTime < bound
  }

  lemma TimesBelowKept(cfg: Config, s: State, a: Action, bound: int)
    requires TimesBelow(s, bound)
    requires (a.MediaIn? ==> a.time < bound) && (a.NewCall? ==> a.time < bound)
    ensures TimesBelow(Apply(cfg, s, a), bound)
  {
    var r := Apply(cfg, s, a);
    forall i | 0 <= i < |r.table| && r.table[i].isUsed
      ensures r.table[i].lastTime < bound
    {
      if !Touches(cfg, s, a, i) {
        UntouchedClocks(cfg, s, a, i);
      } else if a.NewCall? {
        NewCallClocks(cfg, s, a, true);
      } else {
        MediaClocks(cfg, s, a, true);
      }
    }
  }

  /** When all capture times are below INT32_MAX - 300, the final sweep closes every
      file that was opened, once, and empties the table. */
  lemma FinalSweepClosesAll(cfg: Config, ps: seq<Packet>)
    requires forall p :: p in ps ==> p.time < 0x7fff_ffff - 300
    ensures var r := Finish(cfg, Run(cfg, ps));
            && (forall f :: Times(r.log, Closed(f)) == Times(r.log, Opening(f)))
            && (forall f :: Times(r.log, Deleting(f)) + Times(r.log, Announcing(f)) == Times(r.log, Opening(f)))
            && (forall i :: 0 <= i < |r.table| ==> r.table[i] == ZERO)
  {
    var bound := INT32_MAX - IDLE_LIMIT;
    var early := (a: Action) => (a.MediaIn? ==> a.time < bound) && (a.NewCall? ==> a.time < bound);
    forall s, a | TimesBelow(s, bound) && early(a)
      ensures TimesBelow(Apply(cfg, s, a), bound)
    {
      TimesBelowKept(cfg, s, a, bound);
    }
    KeptByRun(cfg, s => TimesBelow(s, bound), early, Init(), ps);
    RunShaped(cfg, ps);
    RunOwnsFiles(cfg, ps);
    var s := Run(cfg, ps);
    var r := Finish(cfg, s);
    SweepKeepsFiles(cfg, s, INT32_MAX);
    assert forall i :: 0 <= i < |r.table| ==> r.table[i] == ZERO;
    forall f
      ensures Times(r.log, Closed(f)) == Times(r.log, Opening(f))
      ensures Times(r.log, Deleting(f)) + Times(r.log, Announcing(f)) == Times(r.log, Opening(f))
    {
      assert FileHistory(r.table, r.nextFile, r.log, f);
    }
  }

  /** After any capture the counter of each slot with a file is the number of media
      packets written to that file, and it is zero without a file. */
  lemma CountersAreExact(cfg: Config, ps: seq<Packet>, i: nat)
    ensures var s := Run(cfg, ps);
            i < |s.table| ==>
              s.table[i].packets == if s.table[i].file == 0 then 0 else MediaWrites(s.log, s.table[i].file)
  {
    forall s, a | Counted(s)
      ensures Counted(Apply(cfg, s, a))
    {
      CountsKept(cfg, s, a);
    }
    AnythingIsCaused(ps);
    KeptByRun(cfg, s => Counted(s), AnyAction, Init(), ps);
    if i < |Run(cfg, ps).table| {
      assert CountOk(Run(cfg, ps).table[i], Run(cfg, ps).log);
    }
  }

  lemma RunKnowsFiles(cfg: Config, ps: seq<Packet>)
    ensures FilesKnown(Run(cfg, ps))
  {
    forall s, a | Counted(s)
      ensures Counted(Apply(cfg, s, a))
    {
      CountsKept(cfg, s, a);
    }
    AnythingIsCaused(ps);
    KeptByRun(cfg, s => Counted(s), AnyAction, Init(), ps);
  }

  lemma RunSamples(cfg: Config, ps: seq<Packet>)
    ensures SampleCount(cfg, Run(cfg, ps))
  {
    forall s, a | SampleCount(cfg, s)
      ensures SampleCount(cfg, Apply(cfg, s, a))
    {
      SampleKept(cfg, s, a);
    }
    AnythingIsCaused(ps);
    assert SampleCount(cfg, Init());
    KeptByRun(cfg, s => SampleCount(cfg, s), AnyAction, Init(), ps);
  }

  /** Over any capture k matching new calls cause ceil(k / N) open attempts. */
  lemma AttemptsPerMatches(cfg: Config, ps: seq<Packet>)
    ensures var log := Run(cfg, ps).log;
            Times(log, OpenAttempted) == (Times(log, Matched) + cfg.skipN - 1) / cfg.skipN
  {
    RunSamples(cfg, ps);
    AttemptsAreCeiling(cfg, Run(cfg, ps));
  }

  /** Whether the packet starts a call whose method matches. */
  predicate StartsMatchingCall(cfg: Config, t: Table, p: Packet) {
    var acts := Dispatch(cfg, t, p);
    acts != [] && acts[0].NewCall? && acts[0].matched
  }

  ghost predicate StartsNoCall(acts: seq<Action>) {
    forall a :: a in acts ==> !a.NewCall?
  }

  lemma {:induction false} OthersAttemptNothing(cfg: Config, s: State, acts: seq<Action>)
    requires StartsNoCall(acts)
    ensures s.log <= ApplyAll(cfg, s, acts).log
    ensures OpenAttempted !in Since(s, ApplyAll(cfg, s, acts))
    decreases |acts|
  {
    if acts != [] {
      assert acts[0] in acts;
      var s1 := Apply(cfg, s, acts[0]);
      LogIs(cfg, s, acts[0]);
      AttemptIff(cfg, s, acts[0]);
      OthersAttemptNothing(cfg, s1, acts[1..]);
      SinceJoins(s, s1, ApplyAll(cfg, s, acts));
    }
  }

  /** A plan that starts a call first and then does other things, or only these. */
  ghost predicate StartsOnce(s: State, acts: seq<Action>) {
    || StartsNoCall(acts)
    || (acts != [] && acts[0].NewCall? && Enabled(s, acts[0]) && StartsNoCall(acts[1..]))
  }

  lemma DispatchStartsOnce(cfg: Config, s: State, p: Packet)
    ensures StartsOnce(s, Dispatch(cfg, s.table, p))
  {
    if p.body.Udp? {
      SipStartsOnce(cfg, s.table, p);
      assert StartsOnce(s, SipPlan(cfg, s.table, p));
    }
  }

  lemma PlanAttemptIff(cfg: Config, s: State, acts: seq<Action>)
    requires StartsOnce(s, acts)
    ensures var r := ApplyAll(cfg, s, acts);
            && s.log <= r.log
            && (OpenAttempted in Since(s, r) <==>
                  acts != [] && acts[0].NewCall? && acts[0].matched && s.skip <= 1)
  {
    if acts != [] && acts[0].NewCall? {
      assert acts[0] in acts;
      var s1 := Apply(cfg, s, acts[0]);
      LogIs(cfg, s, acts[0]);
      AttemptIff(cfg, s, acts[0]);
      OthersAttemptNothing(cfg, s1, acts[1..]);
      SinceJoins(s, s1, ApplyAll(cfg, s, acts));
    } else {
      OthersAttemptNothing(cfg, s, acts);
    }
  }

  lemma StepAttemptIff(cfg: Config, s: State, p: Packet)
    ensures s.log <= Step(cfg, s, p).log
    ensures OpenAttempted in Since(s, Step(cfg, s, p)) <==>
            StartsMatchingCall(cfg, SweepFirst(cfg, s, p.time).table, p) && s.skip <= 1
  {
    var s1 := SweepFirst(cfg, s, p.time);
    var acts := Dispatch(cfg, s1.table, p);
    SweepAttemptsNothing(cfg, s, p.time);
    DispatchStartsOnce(cfg, s1, p);
    PlanAttemptIff(cfg, s1, acts);
    SinceJoins(s, s1, ApplyAll(cfg, s1, acts));
    assert Step(cfg, s, p).log == ApplyAll(cfg, s1, acts).log;
  }

  lemma SweepAttemptsNothing(cfg: Config, s: State, time: int)
    ensures s.log <= SweepFirst(cfg, s, time).log && SweepFirst(cfg, s, time).skip == s.skip
    ensures OpenAttempted !in Since(s, SweepFirst(cfg, s, time))
  {
    LogIs(cfg, s, Sweep(time));
    AttemptIff(cfg, s, Sweep(time));
    assert Since(s, SweepFirst(cfg, s, time)) == if SweepDue(s, time) then EventsOf(cfg, s, Sweep(time)) else [];
  }

  /** The k-th new call with a matching method (counting from 0, over the whole
      capture) gets an open attempt exactly when N divides k, whatever has expired
      since; no other packet causes an attempt. */
  lemma EveryNthCallIsRecorded(cfg: Config, ps: seq<Packet>, p: Packet)
    ensures var s := Run(cfg, ps);
            && s.log <= Step(cfg, s, p).log
            && (OpenAttempted in Since(s, Step(cfg, s, p)) <==>
                  StartsMatchingCall(cfg, SweepFirst(cfg, s, p.time).table, p)
                  && Times(s.log, Matched) % cfg.skipN == 0)
  {
    RunSamples(cfg, ps);
    CounterUsedUpIff(cfg, Run(cfg, ps));
    StepAttemptIff(cfg, Run(cfg, ps), p);
  }

  // ---- fragments ----

  lemma RunRoutes(cfg: Config, s: State, ps: seq<Packet>)
    requires RoutesHistory(s)
    ensures RoutesHistory(RunFrom(cfg, s, ps))
  {
    forall s, a | RoutesHistory(s)
      ensures RoutesHistory(Apply(cfg, s, a))
    {
      RoutesKept(cfg, s, a);
    }
    AnythingIsCaused(ps);
    KeptByRun(cfg, s => RoutesHistory(s), AnyAction, s, ps);
  }

  lemma SweepFirstWritesNothing(cfg: Config, s: State, time: int)
    ensures s.log <= SweepFirst(cfg, s, time).log
    ensures forall e :: e in Since(s, SweepFirst(cfg, s, time)) ==> !e.Wrote?
  {
    LogIs(cfg, s, Sweep(time));
    SweepWritesNothing(cfg, s.table, |s.table|, time);
    assert Since(s, SweepFirst(cfg, s, time)) == if SweepDue(s, time) then EventsOf(cfg, s, Sweep(time)) else [];
  }

  lemma FollowOnStepIs(cfg: Config, s: State, p: Packet)
    requires p.body.FollowOn? && RoutesHistory(s)
    ensures var s1 := SweepFirst(cfg, s, p.time);
            Step(cfg, s, p).log == s1.log + RoutedWrite(Routed(s.log, p.body.key), s1.pos, p.body)
  {
    var s1, a := SweepFirst(cfg, s, p.time), FollowFragment(p.body.key, p.body.more);
    OneAction(cfg, s1, a);
    LogIs(cfg, s1, a);
    assert s1.frags == s.frags;
    assert Lookup(s.frags, p.body.key) == Routed(s.log, p.body.key);
  }

  /** The write to the file a fragment is routed to, if any, and the end of its key. */
  function RoutedWrite(f: Handle, pos: nat, p: Body): seq<Event>
    requires p.FollowOn?
  {
    (if f != 0 then [Wrote(Fragment, f, pos)] else []) + (if p.more then [] else [LastFragment(p.key)])
  }

  /** A follow-on fragment is written to the file recorded by the most recent first
      fragment of its key with no last fragment since, and nowhere when there is none. */
  lemma FragmentsFollowTheirFirst(cfg: Config, ps: seq<Packet>, p: Packet)
    requires p.body.FollowOn?
    ensures var s := Run(cfg, ps);
            var s1 := SweepFirst(cfg, s, p.time);
            Step(cfg, s, p).log == s1.log + RoutedWrite(Routed(s.log, p.body.key), s1.pos, p.body)
    ensures var s := Run(cfg, ps);
            s.log <= SweepFirst(cfg, s, p.time).log
            && forall e :: e in Since(s, SweepFirst(cfg, s, p.time)) ==> !e.Wrote?
  {
    RunRoutes(cfg, Init(), ps);
    SweepFirstWritesNothing(cfg, Run(cfg, ps), p.time);
    FollowOnStepIs(cfg, Run(cfg, ps), p);
  }

  ghost predicate NoFragmentSince(s0: State, s: State) {
    s0.log <= s.log && forall e :: e in Since(s0, s) && e.Wrote? ==> e.via != Fragment
  }

  lemma NoFragmentEvents(cfg: Config, s: State, a: Action)
    requires !a.FollowFragment?
    ensures forall e :: e in EventsOf(cfg, s, a) && e.Wrote? ==> e.via != Fragment
  {
    if a.Sweep? {
      SweepWritesNothing(cfg, s.table, |s.table|, a.now);
    }
  }

  lemma NoFragmentKept(cfg: Config, s0: State, s: State, a: Action)
    requires NoFragmentSince(s0, s) && !a.FollowFragment?
    ensures NoFragmentSince(s0, Apply(cfg, s, a))
  {
    LogIs(cfg, s, a);
    NoFragmentEvents(cfg, s, a);
    assert Since(s0, Apply(cfg, s, a)) == Since(s0, s) + EventsOf(cfg, s, a);
  }

  /** No other packet is written as a fragment. */
  lemma OnlyFragmentsFollow(cfg: Config, s: State, p: Packet)
    requires !p.body.FollowOn?
    ensures NoFragmentSince(s, Step(cfg, s, p))
  {
    var kind := (a: Action) => !a.FollowFragment?;
    forall r, a | NoFragmentSince(s, r) && kind(a)
      ensures NoFragmentSince(s, Apply(cfg, r, a))
    {
      NoFragmentKept(cfg, s, r, a);
    }
    KeptByStep(cfg, r => NoFragmentSince(s, r), kind, s, p);
  }

  // ---- SSRC stickiness ----

  lemma FlowIsFollowed(cfg: Config, s0: State, i: nat, k: nat, ps: seq<Packet>)
    requires Shaped(s0) && Resolves(s0.table, i, k)
    ensures FlowFollowed(s0, i, k, RunFrom(cfg, s0, ps))
  {
    forall s, a | FlowFollowed(s0, i, k, s)
      ensures FlowFollowed(s0, i, k, Apply(cfg, s, a))
    {
      FollowedKept(cfg, s0, i, k, s, a);
    }
    ScanFindsLiveSlots(s0.table, s0.table[i].ip[k], s0.table[i].port[k], s0.table[i].ssrc[k]);
    assert Since(s0, s0) == [];
    AnythingIsCaused(ps);
    KeptByRun(cfg, s => FlowFollowed(s0, i, k, s), AnyAction, s0, ps);
  }

  lemma MediaStepResolves(cfg: Config, s: State, addr: Addr, port: Port, p: Packet)
    requires Shaped(s) && p.body.Udp? && IsMedia(cfg, s.table, addr, port, p.body)
    ensures var h := FindMedia(s.table, addr, FlowPort(cfg, port), SsrcOf(cfg, p.body), 0);
            var r := Apply(cfg, s, MediaAction(cfg, addr, port, p));
            && Shaped(r) && h.slot < |r.table| && h.flow < MAX_FLOWS && Resolves(r.table, h.slot, h.flow)
            && r.table[h.slot].ip[h.flow] == addr && r.table[h.slot].port[h.flow] == FlowPort(cfg, port)
            && r.table[h.slot].ssrc[h.flow] == SsrcOf(cfg, p.body)
  {
    var a := MediaAction(cfg, addr, port, p);
    MediaTableResolves(cfg, s, a);
    ShapeKept(cfg, s, a);
  }

  /** From the state after a media action on. */
  lemma AttributedSticks(cfg: Config, ps: seq<Packet>, addr: Addr, port: Port, p: Packet, more: seq<Packet>)
    requires p.body.Udp?
    ensures var s := SweepFirst(cfg, Run(cfg, ps), p.time);
            IsMedia(cfg, s.table, addr, port, p.body) ==>
            var flowPort, ssrc := FlowPort(cfg, port), SsrcOf(cfg, p.body);
            var h := FindMedia(s.table, addr, flowPort, ssrc, 0);
            var s0 := Apply(cfg, Apply(cfg, s, MediaAction(cfg, addr, port, p)), Tick);
            var r := RunFrom(cfg, s0, more);
            && s0.log <= r.log
            && (Undisturbed(Since(s0, r), h.slot, addr, flowPort) ==>
                  FindMedia(r.table, addr, flowPort, LastSsrc(Since(s0, r), h.slot, h.flow, ssrc), 0) == h)
  {
    var s := SweepFirst(cfg, Run(cfg, ps), p.time);
    RunShaped(cfg, ps);
    ShapeKept(cfg, Run(cfg, ps), Sweep(p.time));
    if IsMedia(cfg, s.table, addr, port, p.body) {
      MediaStepResolves(cfg, s, addr, port, p);
      var h := FindMedia(s.table, addr, FlowPort(cfg, port), SsrcOf(cfg, p.body), 0);
      var s0 := Apply(cfg, Apply(cfg, s, MediaAction(cfg, addr, port, p)), Tick);
      FlowIsFollowed(cfg, s0, h.slot, h.flow, more);
    }
  }

  /** A media packet's whole step is that action: by its destination, or else by its source. */
  lemma MediaStepIs(cfg: Config, s: State, p: Packet)
    requires p.body.Udp?
    ensures var s1 := SweepFirst(cfg, s, p.time);
            var b := p.body;
            && (IsMedia(cfg, s1.table, b.dst, b.dstPort, b) ==>
                  Step(cfg, s, p) == Apply(cfg, Apply(cfg, s1, MediaAction(cfg, b.dst, b.dstPort, p)), Tick))
            && (!IsMedia(cfg, s1.table, b.dst, b.dstPort, b) && IsMedia(cfg, s1.table, b.src, b.srcPort, b) ==>
                  Step(cfg, s, p) == Apply(cfg, Apply(cfg, s1, MediaAction(cfg, b.src, b.srcPort, p)), Tick))
  {
    var s1 := SweepFirst(cfg, s, p.time);
    var b := p.body;
    OneAction(cfg, s1, MediaAction(cfg, b.dst, b.dstPort, p));
    OneAction(cfg, s1, MediaAction(cfg, b.src, b.srcPort, p));
  }

  /** The address by which a packet is media: its destination, or else its source. */
  function MediaSide(cfg: Config, t: Table, p: Body): Option<(Addr, Port)>
    requires p.Udp?
  {
    if IsMedia(cfg, t, p.dst, p.dstPort, p) then Some((p.dst, p.dstPort))
    else if IsMedia(cfg, t, p.src, p.srcPort, p) then Some((p.src, p.srcPort))
    else None
  }

  /** Once a media packet of a capture has been attributed to a flow, the SSRC last
      attributed to that flow keeps finding it, before and after a BYE, through any
      further packets that neither expire the call nor register its address and port
      with a lower slot. */
  lemma SsrcSticks(cfg: Config, ps: seq<Packet>, p: Packet, more: seq<Packet>)
    requires p.body.Udp?
    ensures var t := Before(cfg, ps, p).table;
            var side := MediaSide(cfg, t, p.body);
            side.Some? ==>
              var addr, port, ssrc := side.value.0, FlowPort(cfg, side.value.1), SsrcOf(cfg, p.body);
              var h := FindMedia(t, addr, port, ssrc, 0);
              var s0, r := Run(cfg, ps + [p]), Run(cfg, ps + [p] + more);
              && s0.log <= r.log
              && (Undisturbed(Since(s0, r), h.slot, addr, port) ==>
                    FindMedia(r.table, addr, port, LastSsrc(Since(s0, r), h.slot, h.flow, ssrc), 0) == h)
  {
    var side := MediaSide(cfg, Before(cfg, ps, p).table, p.body);
    if side.Some? {
      assert (ps + [p])[..|ps + [p]| - 1] == ps;
      MediaStepIs(cfg, Run(cfg, ps), p);
      RunsJoin(cfg, Init(), ps + [p], more);
      AttributedSticks(cfg, ps, side.value.0, side.value.1, p, more);
    }
  }

  lemma OneAction(cfg: Config, s: State, a: Action)
    ensures ApplyAll(cfg, s, [a]) == Apply(cfg, s, a)
  {
    assert ApplyAll(cfg, s, [a]) == ApplyAll(cfg, Apply(cfg, s, a), [a][1..]);
  }

  lemma CallIsFollowed(cfg: Config, s0: State, i: nat, ps: seq<Packet>)
    requires Shaped(s0) && i < |s0.table| && s0.table[i].isUsed
    ensures CallFollowed(s0, i, RunFrom(cfg, s0, ps))
  {
    forall s, a | CallFollowed(s0, i, s)
      ensures CallFollowed(s0, i, Apply(cfg, s, a))
    {
      CallKept(cfg, s0, i, s, a);
    }
    AnythingIsCaused(ps);
    KeptByRun(cfg, s => CallFollowed(s0, i, s), AnyAction, s0, ps);
  }

  /** Once a call has had its BYE, the pairs and SSRCs of its registered flows stay as
      they are until it expires. */
  lemma EndedCallIsFrozen(cfg: Config, ps: seq<Packet>, i: nat, more: seq<Packet>)
    requires i < |Run(cfg, ps).table| && Run(cfg, ps).table[i].isUsed && Run(cfg, ps).table[i].hadBye
    ensures var s0 := Run(cfg, ps);
            var r := RunFrom(cfg, s0, more);
            && s0.log <= r.log
            && (Expired(i) !in Since(s0, r) ==> i < |r.table| && Frozen(s0.table[i], r.table[i]))
  {
    RunShaped(cfg, ps);
    CallIsFollowed(cfg, Run(cfg, ps), i, more);
  }

  // ---- expiry ----

  ghost predicate NonDecreasing(ps: seq<Packet>) {
    && (forall i :: 0 <= i < |ps| ==> 0 <= ps[i].time < WORD)
    && (forall i, j :: 0 <= i < j < |ps| ==> ps[i].time <= ps[j].time)
  }

  lemma RecentIsMonotone(cfg: Config, s: State, now: int, later: int)
    requires Recent(cfg, s, now) && now <= later < WORD
    ensures Recent(cfg, s, later)
  {
  }

  lemma RecentIsKept(cfg: Config, now: int, kind: Action -> bool)
    requires cfg.limit >= 0 && forall a :: kind(a) ==> AtTime(a, now)
    ensures Kept(cfg, s => Recent(cfg, s, now), kind)
  {
    forall s, a | Recent(cfg, s, now) && kind(a)
      ensures Recent(cfg, Apply(cfg, s, a), now)
    {
      RecentKept(cfg, s, a, now);
    }
  }

  lemma RecentStep(cfg: Config, s: State, p: Packet)
    requires cfg.limit >= 0 && Recent(cfg, s, p.time)
    ensures Recent(cfg, SweepFirst(cfg, s, p.time), p.time)
    ensures Recent(cfg, Step(cfg, s, p), p.time)
    ensures p.time - SweepFirst(cfg, s, p.time).lastCleanup <= 15
  {
    var kind := (a: Action) => AtTime(a, p.time);
    RecentIsKept(cfg, p.time, kind);
    KeptByStep(cfg, s => Recent(cfg, s, p.time), kind, s, p);
    SweepClock(cfg, s, Sweep(p.time), p.time);
  }

  lemma {:induction false} RecentRun(cfg: Config, ps: seq<Packet>, now: int)
    requires cfg.limit >= 0 && NonDecreasing(ps)
    requires 0 <= now < WORD && forall p :: p in ps ==> p.time <= now
    ensures Recent(cfg, Run(cfg, ps), now)
    decreases |ps|
  {
    if ps != [] {
      var p := ps[|ps| - 1];
      assert p in ps;
      RecentRun(cfg, ps[..|ps| - 1], p.time);
      RecentStep(cfg, Run(cfg, ps[..|ps| - 1]), p);
      RecentIsMonotone(cfg, Run(cfg, ps), p.time, now);
    }
  }

  /** With a non-decreasing clock and a limit T >= 0, after the sweep check of every
      packet no used slot is more than 315 s past its creation or last recorded media
      packet, nor more than T + 15 s past its creation. */
  lemma NoCallIsOverdue(cfg: Config, ps: seq<Packet>, p: Packet, i: nat)
    requires cfg.limit >= 0 && NonDecreasing(ps + [p])
    ensures var s := SweepFirst(cfg, Run(cfg, ps), p.time);
            i < |s.table| && s.table[i].isUsed ==>
              p.time - s.table[i].lastTime <= 315 && p.time - s.table[i].firstTime <= cfg.limit + 15
  {
    var all := ps + [p];
    assert all[|ps|] == p && forall j :: 0 <= j < |ps| ==> ps[j] == all[j];
    RecentRun(cfg, ps, p.time);
    RecentStep(cfg, Run(cfg, ps), p);
  }

  lemma RunClocks(cfg: Config, s: State, ps: seq<Packet>)
    requires ClocksAreHistory(s)
    ensures ClocksAreHistory(RunFrom(cfg, s, ps))
  {
    forall s, a | ClocksAreHistory(s)
      ensures ClocksAreHistory(Apply(cfg, s, a))
    {
      ClocksKept(cfg, s, a);
    }
    AnythingIsCaused(ps);
    KeptByRun(cfg, s => ClocksAreHistory(s), AnyAction, s, ps);
  }

  /** After any capture a used slot's two times are those of its last recorded media
      packet (or creation) and of its creation. SIP messages leave them alone. */
  lemma ClocksTellTheHistory(cfg: Config, ps: seq<Packet>, i: nat)
    ensures var s := Run(cfg, ps);
            i < |s.table| && s.table[i].isUsed ==>
              s.table[i].lastTime == ClockOf(s.log, i, true) && s.table[i].firstTime == ClockOf(s.log, i, false)
  {
    RunClocks(cfg, Init(), ps);
  }

  lemma SweepExpiresIff(cfg: Config, s: State, time: int, i: nat)
    ensures s.log <= SweepFirst(cfg, s, time).log
    ensures Expired(i) in Since(s, SweepFirst(cfg, s, time)) <==>
            SweepDue(s, time) && i < |s.table| && Expires(s.table[i], time, cfg.limit)
  {
    LogIs(cfg, s, Sweep(time));
    ExpiredIff(cfg, s, Sweep(time), i);
    assert Since(s, SweepFirst(cfg, s, time)) == if SweepDue(s, time) then EventsOf(cfg, s, Sweep(time)) else [];
  }

  lemma {:induction false} NoExpiryInDispatch(cfg: Config, s: State, acts: seq<Action>, i: nat)
    requires forall a :: a in acts ==> !a.Sweep?
    ensures s.log <= ApplyAll(cfg, s, acts).log
    ensures Expired(i) !in Since(s, ApplyAll(cfg, s, acts))
    decreases |acts|
  {
    if acts != [] {
      assert acts[0] in acts;
      var s1 := Apply(cfg, s, acts[0]);
      LogIs(cfg, s, acts[0]);
      ExpiredIff(cfg, s, acts[0], i);
      NoExpiryInDispatch(cfg, s1, acts[1..], i);
      SinceJoins(s, s1, ApplyAll(cfg, s, acts));
    }
  }

  lemma SinceJoins(s: State, s1: State, r: State)
    requires s.log <= s1.log <= r.log
    ensures s.log <= r.log && Since(s, r) == Since(s, s1) + Since(s1, r)
  {
  }

  /** A packet's step expires a slot exactly when its sweep is due and the slot overdue. */
  lemma StepExpiresIff(cfg: Config, s: State, p: Packet, i: nat)
    ensures s.log <= Step(cfg, s, p).log
    ensures Expired(i) in Since(s, Step(cfg, s, p)) <==>
            SweepDue(s, p.time) && i < |s.table| && Expires(s.table[i], p.time, cfg.limit)
  {
    var s1 := SweepFirst(cfg, s, p.time);
    var acts := Dispatch(cfg, s1.table, p);
    SweepExpiresIff(cfg, s, p.time, i);
    DispatchFromPacket(cfg, s1.table, p);
    NoExpiryInDispatch(cfg, s1, acts, i);
    SinceJoins(s, s1, ApplyAll(cfg, s1, acts));
    assert Step(cfg, s, p).log == ApplyAll(cfg, s1, acts).log;
  }

  /** Before packet `p`, after the packets `ps`, neither clock of the slot is overdue. */
  ghost predicate ActiveAt(cfg: Config, s0: State, i: nat, ps: seq<Packet>, p: Packet) {
    var log := RunFrom(cfg, s0, ps).log;
    p.time - ClockOf(log, i, true) <= IDLE_LIMIT && p.time - ClockOf(log, i, false) <= cfg.limit
  }

  /** So it is before each packet. */
  ghost predicate AlwaysActive(cfg: Config, s0: State, i: nat, ps: seq<Packet>) {
    ps == []
    || (AlwaysActive(cfg, s0, i, ps[..|ps| - 1]) && ActiveAt(cfg, s0, i, ps[..|ps| - 1], ps[|ps| - 1]))
  }

  lemma ActiveStep(cfg: Config, s0: State, i: nat, s: State, p: Packet)
    requires s0.log <= s.log && Expired(i) !in Since(s0, s)
    requires i < |s.table| && s.table[i].isUsed && ClocksAreHistory(s)
    requires p.time - ClockOf(s.log, i, true) <= IDLE_LIMIT && p.time - ClockOf(s.log, i, false) <= cfg.limit
    ensures s0.log <= Step(cfg, s, p).log && Expired(i) !in Since(s0, Step(cfg, s, p))
  {
    StepExpiresIff(cfg, s, p, i);
    SinceJoins(s0, s, Step(cfg, s, p));
  }

  /** A call that is never overdue before a packet is expired by no sweep. */
  lemma {:induction false} ActiveCallSurvives(cfg: Config, s0: State, i: nat, ps: seq<Packet>)
    requires ClocksAreHistory(s0) && i < |s0.table| && s0.table[i].isUsed
    requires AlwaysActive(cfg, s0, i, ps)
    ensures var r := RunFrom(cfg, s0, ps);
            && s0.log <= r.log && Expired(i) !in Since(s0, r)
            && i < |r.table| && r.table[i].isUsed
    decreases |ps|
  {
    CallIsFollowed(cfg, s0, i, ps);
    if ps != [] {
      var few := ps[..|ps| - 1];
      ActiveCallSurvives(cfg, s0, i, few);
      RunClocks(cfg, s0, few);
      ActiveStep(cfg, s0, i, RunFrom(cfg, s0, few), ps[|ps| - 1]);
    }
  }

  /** The sweep at time 0 that the signal handlers run changes something if and only if
      a call's last packet lies more than 300 s before time 0, or its first one more than
      the limit. */
  lemma InterruptChangesIff(cfg: Config, s: State)
    ensures Cleaned(cfg, s, 0) == s <==>
            forall i :: 0 <= i < |s.table| && s.table[i].isUsed ==>
              -300 <= s.table[i].lastTime && -cfg.limit <= s.table[i].firstTime
  {
    if forall i :: 0 <= i < |s.table| ==> !Expires(s.table[i], 0, cfg.limit) {
      assert Swept(s.table, 0, cfg.limit) == s.table;
      NothingToSweep(cfg, s.table, |s.table|, 0);
    } else {
      var i :| 0 <= i < |s.table| && Expires(s.table[i], 0, cfg.limit);
      assert Cleaned(cfg, s, 0).table[i] == ZERO;
    }
  }

  /** So it changes nothing, and closes no file, after any capture of ordinary times. */
  lemma InterruptClosesNothing(cfg: Config, ps: seq<Packet>)
    requires forall p :: p in ps ==> -IDLE_LIMIT <= p.time && -cfg.limit <= p.time
    ensures Cleaned(cfg, Run(cfg, ps), 0) == Run(cfg, ps)
  {
    var bound := if cfg.limit < IDLE_LIMIT then -cfg.limit else -IDLE_LIMIT;
    var kind := (a: Action) => (a.MediaIn? ==> bound <= a.time) && (a.NewCall? ==> bound <= a.time);
    forall s, a | TimesFrom(s, bound) && kind(a)
      ensures TimesFrom(Apply(cfg, s, a), bound)
    {
      TimesFromKept(cfg, s, a, bound);
    }
    KeptByRun(cfg, s => TimesFrom(s, bound), kind, Init(), ps);
    InterruptChangesIff(cfg, Run(cfg, ps));
  }

  ghost predicate TimesFrom(s: State, bound: int) {
    forall i :: 0 <= i < |s.table| && s.table[i].isUsed ==>
      bound <= s.table[i].lastTime && bound <= s.table[i].firstTime
  }

  lemma TimesFromKept(cfg: Config, s: State, a: Action, bound: int)
    requires TimesFrom(s, bound)
    requires (a.MediaIn? ==> bound <= a.time) && (a.NewCall? ==> bound <= a.time)
    ensures TimesFrom(Apply(cfg, s, a), bound)
  {
    var r := Apply(cfg, s, a);
    forall i | 0 <= i < |r.table| && r.table[i].isUsed
      ensures bound <= r.table[i].lastTime && bound <= r.table[i].firstTime
    {
      if !Touches(cfg, s, a, i) {
        UntouchedClocks(cfg, s, a, i);
      } else if a.NewCall? {
        NewCallClocks(cfg, s, a, true);
      } else {
        MediaClocks(cfg, s, a, true);
      }
    }
  }

  lemma {:induction false} NothingToSweep(cfg: Config, t: Table, n: nat, now: int)
    requires n <= |t| && forall i :: 0 <= i < |t| ==> !Expires(t[i], now, cfg.limit)
    ensures SweepEvents(t, n, now, cfg) == []
  {
    if n > 0 {
      NothingToSweep(cfg, t, n - 1, now);
    }
  }
}
