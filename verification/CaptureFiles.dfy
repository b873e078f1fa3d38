/** The one-file-per-call split: over a capture every packet is written at most once,
    and the files are disjoint in-order selections of its packets. */
module CaptureFiles {
  import opened Sip
  import opened Slots
  import opened Machine
  import opened Captures
  import opened FileSplit

  predicate Writes(a: Action) { a.MediaIn? || a.SipWrite? || a.FollowFragment? }

  function Writers(acts: seq<Action>): nat {
    if acts == [] then 0 else (if Writes(acts[0]) then 1 else 0) + Writers(acts[1..])
  }

  lemma {:induction false} WritersAppend(x: seq<Action>, y: seq<Action>)
    ensures Writers(x + y) == Writers(x) + Writers(y)
  {
    if x == [] {
      assert x + y == y;
    } else {
      assert (x + y)[1..] == x[1..] + y;
      WritersAppend(x[1..], y);
    }
  }

  lemma {:induction false} NoWriters(acts: seq<Action>)
    requires forall a :: a in acts ==> !Writes(a)
    ensures Writers(acts) == 0
  {
    if acts != [] {
      assert acts[0] in acts;
      NoWriters(acts[1..]);
    }
  }

  // ---- a packet causes at most one writing action ----

  lemma SdpWritesNothing(cfg: Config, idx: nat, sdp: string)
    ensures Writers(SdpPlan(cfg, idx, sdp)) == 0
  {
    assert forall a :: a in SdpPlan(cfg, idx, sdp) ==> a.Offer? || a.SetEvent? || a.SetT38?;
    NoWriters(SdpPlan(cfg, idx, sdp));
  }

  lemma OnCallWritesOnce(cfg: Config, idx: nat, p: Body)
    requires p.Udp?
    ensures Writers(OnCallPlan(cfg, idx, p)) == 1
  {
    var sdp := SdpBody(p.payload);
    var a := if MethodName(Seen(p)) == "BYE" then [Bye(idx)] else [];
    var b := if sdp.Some? then SdpPlan(cfg, idx, sdp.value) else [];
    var d := if p.first.Some? then [RecordFragment(idx, p.first.value)] else [];
    WritersAppend(a, b + ([SipWrite(idx)] + d));
    WritersAppend(b, [SipWrite(idx)] + d);
    WritersAppend([SipWrite(idx)], d);
    NoWriters(a);
    NoWriters(d);
    if sdp.Some? {
      SdpWritesNothing(cfg, idx, sdp.value);
    }
    assert Writers([SipWrite(idx)]) == 1 + Writers([]);
  }

  lemma SipWritesOnce(cfg: Config, t: Table, p: Packet)
    requires p.body.Udp?
    ensures Writers(SipPlan(cfg, t, p)) <= 1
  {
    var id := CallId(p.body.payload);
    if id.Some? {
      var idx := FindCall(t, KeyOf(id.value), 0);
      if idx >= 0 {
        OnCallWritesOnce(cfg, idx, p.body);
      } else {
        var start := [NewCallAction(cfg, id.value, p)];
        NoWriters(start);
        OnCallWritesOnce(cfg, FreeSlot(t, 0), p.body);
        WritersAppend(start, OnCallPlan(cfg, FreeSlot(t, 0), p.body));
      }
    }
  }

  lemma DispatchWritesOnce(cfg: Config, t: Table, p: Packet)
    ensures Writers(Dispatch(cfg, t, p)) <= 1
  {
    if p.body.Udp? {
      SipWritesOnce(cfg, t, p);
    }
  }

  // ---- so writes are in capture order ----

  ghost predicate Ordered(log: seq<Event>) {
    forall m, n :: 0 <= m < n < |log| && log[m].Wrote? && log[n].Wrote? ==> log[m].pos < log[n].pos
  }

  ghost predicate WrittenBelow(log: seq<Event>, bound: nat) {
    forall e :: e in log && e.Wrote? ==> e.pos < bound
  }

  lemma ActionWritesHere(cfg: Config, s: State, a: Action)
    ensures forall e :: e in EventsOf(cfg, s, a) && e.Wrote? ==> Writes(a) && e.pos == s.pos
    ensures forall m, n :: 0 <= m < n < |EventsOf(cfg, s, a)| ==>
              !(EventsOf(cfg, s, a)[m].Wrote? && EventsOf(cfg, s, a)[n].Wrote?)
    ensures !a.Tick? ==> Apply(cfg, s, a).pos == s.pos
  {
    if a.Sweep? {
      SweepWritesNothing(cfg, s.table, |s.table|, a.now);
    }
  }

  lemma OrderedAppend(log: seq<Event>, more: seq<Event>, pos: nat)
    requires Ordered(log) && WrittenBelow(log, pos)
    requires forall e :: e in more && e.Wrote? ==> e.pos == pos
    requires forall m, n :: 0 <= m < n < |more| ==> !(more[m].Wrote? && more[n].Wrote?)
    ensures Ordered(log + more)
  {
    var r := log + more;
    forall m, n | 0 <= m < n < |r| && r[m].Wrote? && r[n].Wrote?
      ensures r[m].pos < r[n].pos
    {
      if n >= |log| {
        var e := more[n - |log|];
        assert r[n] == e && e in more;
        if m < |log| {
          assert r[m] in log;
        }
      }
    }
  }

  lemma QuietOrdered(log: seq<Event>, more: seq<Event>, bound: nat)
    requires Ordered(log) && WrittenBelow(log, bound)
    requires forall e :: e in more ==> !e.Wrote?
    ensures Ordered(log + more) && WrittenBelow(log + more, bound)
  {
    assert forall m :: |log| <= m < |log + more| ==> (log + more)[m] in more;
  }

  lemma {:induction false} PlanKeepsOrder(cfg: Config, s: State, acts: seq<Action>)
    requires Ordered(s.log) && Writers(acts) <= 1
    requires WrittenBelow(s.log, if Writers(acts) == 1 then s.pos else s.pos + 1)
    requires forall a :: a in acts ==> !a.Tick?
    ensures var r := ApplyAll(cfg, s, acts);
            Ordered(r.log) && WrittenBelow(r.log, s.pos + 1) && r.pos == s.pos
    decreases |acts|
  {
    if acts != [] {
      var a := acts[0];
      assert a in acts;
      var more := EventsOf(cfg, s, a);
      LogIs(cfg, s, a);
      ActionWritesHere(cfg, s, a);
      if Writes(a) {
        OrderedAppend(s.log, more, s.pos);
      } else {
        QuietOrdered(s.log, more, if Writers(acts) == 1 then s.pos else s.pos + 1);
      }
      PlanKeepsOrder(cfg, Apply(cfg, s, a), acts[1..]);
    }
  }

  ghost predicate SplitInOrder(s: State) { Ordered(s.log) && WrittenBelow(s.log, s.pos) }

  lemma SweepKeepsOrder(cfg: Config, s: State, time: int)
    requires SplitInOrder(s)
    ensures SplitInOrder(SweepFirst(cfg, s, time)) && SweepFirst(cfg, s, time).pos == s.pos
  {
    LogIs(cfg, s, Sweep(time));
    SweepWritesNothing(cfg, s.table, |s.table|, time);
    QuietOrdered(s.log, EventsOf(cfg, s, Sweep(time)), s.pos);
  }

  lemma DispatchKeepsOrder(cfg: Config, s: State, p: Packet)
    requires SplitInOrder(s)
    ensures var r := ApplyAll(cfg, s, Dispatch(cfg, s.table, p));
            Ordered(r.log) && WrittenBelow(r.log, s.pos + 1) && r.pos == s.pos
  {
    var acts := Dispatch(cfg, s.table, p);
    DispatchWritesOnce(cfg, s.table, p);
    DispatchFromPacket(cfg, s.table, p);
    PlanKeepsOrder(cfg, s, acts);
  }

  lemma TickKeepsOrder(cfg: Config, s: State)
    requires Ordered(s.log) && WrittenBelow(s.log, s.pos + 1)
    ensures SplitInOrder(Apply(cfg, s, Tick)) && Apply(cfg, s, Tick).pos == s.pos + 1
  {
  }

  lemma StepKeepsOrder(cfg: Config, s: State, p: Packet)
    requires SplitInOrder(s)
    ensures SplitInOrder(Step(cfg, s, p)) && Step(cfg, s, p).pos == s.pos + 1
  {
    var s1 := SweepFirst(cfg, s, p.time);
    SweepKeepsOrder(cfg, s, p.time);
    DispatchKeepsOrder(cfg, s1, p);
    TickKeepsOrder(cfg, ApplyAll(cfg, s1, Dispatch(cfg, s1.table, p)));
  }

  lemma {:induction false} RunKeepsOrder(cfg: Config, ps: seq<Packet>)
    ensures SplitInOrder(Run(cfg, ps)) && Run(cfg, ps).pos == |ps|
    decreases |ps|
  {
    if ps != [] {
      RunKeepsOrder(cfg, ps[..|ps| - 1]);
      StepKeepsOrder(cfg, Run(cfg, ps[..|ps| - 1]), ps[|ps| - 1]);
    }
  }

  // ---- the files ----

  /** The capture positions of the packets written to a file, in the order written. */
  function PositionsIn(log: seq<Event>, f: Handle): seq<nat> {
    if log == [] then []
    else
      var e := log[|log| - 1];
      PositionsIn(log[..|log| - 1], f) + if e.Wrote? && e.file == f then [e.pos] else []
  }

  lemma {:induction false} PositionWritten(log: seq<Event>, f: Handle, x: nat) returns (n: nat)
    requires x in PositionsIn(log, f)
    ensures n < |log| && log[n].Wrote? && log[n].file == f && log[n].pos == x
    decreases |log|
  {
    n := |log| - 1;
    if !(log[n].Wrote? && log[n].file == f && log[n].pos == x) {
      n := PositionWritten(log[..n], f, x);
    }
  }

  lemma {:induction false} PositionsIncrease(log: seq<Event>, f: Handle)
    requires Ordered(log)
    ensures forall j, k :: 0 <= j < k < |PositionsIn(log, f)| ==> PositionsIn(log, f)[j] < PositionsIn(log, f)[k]
    decreases |log|
  {
    if log != [] {
      var n := |log| - 1;
      var before := PositionsIn(log[..n], f);
      PositionsIncrease(log[..n], f);
      forall j | 0 <= j < |before| && log[n].Wrote?
        ensures before[j] < log[n].pos
      {
        var m := PositionWritten(log[..n], f, before[j]);
        assert log[m].pos < log[n].pos;
      }
    }
  }

  /** The packets of a file. */
  function Contents(ps: seq<Packet>, at: seq<nat>): seq<Packet>
    requires forall k :: 0 <= k < |at| ==> at[k] < |ps|
  {
    seq(|at|, k requires 0 <= k < |at| => ps[at[k]])
  }

  /** `a` is `b` at the increasing positions `at`. */
  ghost predicate Selects<T>(at: seq<nat>, a: seq<T>, b: seq<T>) {
    && |at| == |a|
    && (forall j, k :: 0 <= j < k < |at| ==> at[j] < at[k])
    && forall k :: 0 <= k < |at| ==> at[k] < |b| && a[k] == b[at[k]]
  }

  lemma PositionsBelow(log: seq<Event>, f: Handle, bound: nat)
    requires WrittenBelow(log, bound)
    ensures forall k :: 0 <= k < |PositionsIn(log, f)| ==> PositionsIn(log, f)[k] < bound
  {
    forall k | 0 <= k < |PositionsIn(log, f)|
      ensures PositionsIn(log, f)[k] < bound
    {
      var n := PositionWritten(log, f, PositionsIn(log, f)[k]);
      assert log[n] in log;
    }
  }

  /** Over any capture each file is an in-order selection of the captured packets. */
  lemma FilesSelectTheCapture(cfg: Config, ps: seq<Packet>, f: Handle)
    ensures var at := PositionsIn(Run(cfg, ps).log, f);
            && (forall k :: 0 <= k < |at| ==> at[k] < |ps|)
            && Selects(at, Contents(ps, at), ps)
  {
    RunKeepsOrder(cfg, ps);
    PositionsBelow(Run(cfg, ps).log, f, |ps|);
    PositionsIncrease(Run(cfg, ps).log, f);
  }

  /** Over any capture a packet is written at most once, and so to one file at most. */
  lemma WrittenAtMostOnce(cfg: Config, ps: seq<Packet>)
    ensures var log := Run(cfg, ps).log;
            forall m, n :: 0 <= m < n < |log| && log[m].Wrote? && log[n].Wrote? ==> log[m].pos != log[n].pos
    ensures var log := Run(cfg, ps).log;
            forall f, g, x :: x in PositionsIn(log, f) && x in PositionsIn(log, g) ==> f == g
  {
    RunKeepsOrder(cfg, ps);
    var log := Run(cfg, ps).log;
    forall f, g, x | x in PositionsIn(log, f) && x in PositionsIn(log, g)
      ensures f == g
    {
      var m := PositionWritten(log, f, x);
      var n := PositionWritten(log, g, x);
    }
  }
}
