/** How the files of calls end: deleted when T.38 is looked for and no message of the call
    told of it, announced otherwise. */
module Endings {
  import opened Slots
  import opened Machine
  import opened Captures
  import opened Ownership
  import opened FileNames
  import opened SsrcSticky
  import opened WholeRuns
  import opened Messages

  /** The event ends the slot's file, in the way that suits what the call's messages told. */
  ghost predicate EndsSlot(cfg: Config, s: Slot, n: Notes, e: Event) {
    && IsEnding(e) && s.isUsed && s.file == e.file != 0
    && (e.Unlinked? <==> cfg.t38Only && !n.t38)
  }

  lemma {:induction false} SweepEndsSlot(cfg: Config, t: Table, n: nat, now: int, e: Event) returns (i: nat)
    requires n <= |t| && e in SweepEvents(t, n, now, cfg) && IsEnding(e)
    ensures i < n && Expires(t[i], now, cfg.limit) && EndsSlot(cfg, t[i], NotesOf(t[i]), e)
  {
    if e in SlotSweepEvents(t[n - 1], n - 1, now, cfg) {
      i := n - 1;
    } else {
      i := SweepEndsSlot(cfg, t, n - 1, now, e);
    }
  }

  // ---- only sweeps end files ----

  ghost predicate NoEnding(more: seq<Event>) { forall e :: e in more ==> !IsEnding(e) }

  lemma ActionEndsNothing(cfg: Config, s: State, a: Action)
    requires !a.Sweep?
    ensures NoEnding(EventsOf(cfg, s, a))
  {
    if !a.NewCall? {
      OthersAreQuiet(cfg, s, a);
    }
  }

  lemma {:induction false} PlanEndsNothing(cfg: Config, s: State, acts: seq<Action>)
    requires forall a :: a in acts ==> !a.Sweep?
    ensures s.log <= ApplyAll(cfg, s, acts).log && NoEnding(Since(s, ApplyAll(cfg, s, acts)))
    decreases |acts|
  {
    if acts != [] {
      assert acts[0] in acts;
      var s1 := Apply(cfg, s, acts[0]);
      LogIs(cfg, s, acts[0]);
      ActionEndsNothing(cfg, s, acts[0]);
      PlanEndsNothing(cfg, s1, acts[1..]);
      SinceJoins(s, s1, ApplyAll(cfg, s, acts));
    }
  }

  /** The endings of a packet's step are those of its sweep. */
  lemma StepEndings(cfg: Config, s: State, p: Packet, e: Event)
    requires IsEnding(e)
    ensures s.log <= Step(cfg, s, p).log
    ensures e in Since(s, Step(cfg, s, p)) ==>
              SweepDue(s, p.time) && e in SweepEvents(s.table, |s.table|, p.time, cfg)
  {
    var s1 := SweepFirst(cfg, s, p.time);
    var r := ApplyAll(cfg, s1, Dispatch(cfg, s1.table, p));
    DispatchFromPacket(cfg, s1.table, p);
    PlanEndsNothing(cfg, s1, Dispatch(cfg, s1.table, p));
    LogIs(cfg, s, Sweep(p.time));
    SinceJoins(s, s1, r);
    assert Step(cfg, s, p).log == r.log;
  }

  // ---- over captures ----

  /** After the first `n` packets the call in slot `i` holds the file that the event ends,
      the next sweep, or the final one, expires it, and the file ends as its messages
      have told until then. */
  ghost predicate EndsCall(cfg: Config, ps: seq<Packet>, n: nat, i: nat, e: Event) {
    && n <= |ps|
    && var s := Run(cfg, ps[..n]);
    && i < |s.table|
    && (if n < |ps| then SweepDue(s, ps[n].time) && Expires(s.table[i], ps[n].time, cfg.limit)
        else Expires(s.table[i], INT32_MAX, cfg.limit))
    && EndsSlot(cfg, s.table[i], Told(cfg, ps[..n], i), e)
  }

  ghost predicate EndsSomeCall(cfg: Config, ps: seq<Packet>, e: Event) {
    exists n: nat, i: nat :: n < |ps| && EndsCall(cfg, ps, n, i, e)
  }

  lemma LongerCapture(cfg: Config, ps: seq<Packet>, p: Packet, e: Event)
    requires EndsSomeCall(cfg, ps, e)
    ensures EndsSomeCall(cfg, ps + [p], e)
  {
    var n: nat, i: nat :| n < |ps| && EndsCall(cfg, ps, n, i, e);
    assert (ps + [p])[..n] == ps[..n] && (ps + [p])[n] == ps[n];
    assert EndsCall(cfg, ps + [p], n, i, e);
  }

  lemma LastStepEnds(cfg: Config, ps: seq<Packet>, p: Packet, e: Event)
    requires IsEnding(e) && Run(cfg, ps).log <= Run(cfg, ps + [p]).log
    requires e in Since(Run(cfg, ps), Run(cfg, ps + [p]))
    ensures EndsSomeCall(cfg, ps + [p], e)
  {
    var s := Run(cfg, ps);
    assert (ps + [p])[..|ps + [p]| - 1] == ps;
    StepEndings(cfg, s, p, e);
    var i := SweepEndsSlot(cfg, s.table, |s.table|, p.time, e);
    SlotsAreTold(cfg, ps, i);
    assert (ps + [p])[..|ps|] == ps && (ps + [p])[|ps|] == p;
    assert EndsCall(cfg, ps + [p], |ps|, i, e);
  }

  lemma {:induction false} RunEndings(cfg: Config, ps: seq<Packet>, e: Event)
    requires e in Run(cfg, ps).log && IsEnding(e)
    ensures EndsSomeCall(cfg, ps, e)
    decreases |ps|
  {
    var few, p := ps[..|ps| - 1], ps[|ps| - 1];
    assert few + [p] == ps;
    StepEndings(cfg, Run(cfg, few), p, e);
    if e in Run(cfg, few).log {
      RunEndings(cfg, few, e);
      LongerCapture(cfg, few, p, e);
    } else {
      LastStepEnds(cfg, few, p, e);
    }
  }

  /** Over any capture and its final sweep: whenever a file ends, it is the file of a call
      that a sweep expires then; it is deleted if and only if T.38 is looked for and no
      message of that call since it was added told of it, and announced otherwise. */
  lemma FilesEndAsTold(cfg: Config, ps: seq<Packet>, e: Event)
    requires e in Finish(cfg, Run(cfg, ps)).log && IsEnding(e)
    ensures exists n: nat, i: nat :: EndsCall(cfg, ps, n, i, e)
  {
    var s := Run(cfg, ps);
    if e in s.log {
      RunEndings(cfg, ps, e);
    } else {
      var i := SweepEndsSlot(cfg, s.table, |s.table|, INT32_MAX, e);
      SlotsAreTold(cfg, ps, i);
      assert ps[..|ps|] == ps;
      assert EndsCall(cfg, ps, |ps|, i, e);
    }
  }
}
