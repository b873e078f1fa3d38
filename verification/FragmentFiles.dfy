/** Follow-on fragments and closed files: the fragment map outlives the files it names,
    and a fragment reaches an open file exactly as long as a slot holds that file. */
module FragmentFiles {
  import opened Slots
  import opened Machine
  import opened Captures
  import opened Ownership
  import opened FileSplit
  import opened FragmentRouting
  import opened SsrcSticky
  import opened WholeRuns

  /** The sweep before a packet at this time ends the call. */
  predicate EndedAt(cfg: Config, s: State, slot: Slot, time: int) {
    SweepDue(s, time) && Expires(slot, time, cfg.limit)
  }

  /** A slot holds the file, and the sweep that the packet may cause does not end it. */
  ghost predicate StillHeld(cfg: Config, s: State, time: int, f: Handle) {
    exists i :: 0 <= i < |s.table| && s.table[i].file == f && !EndedAt(cfg, s, s.table[i], time)
  }

  lemma HeldIsOwned(cfg: Config, s: State, time: int, f: Handle)
    requires f != 0
    ensures StillHeld(cfg, s, time, f) <==> Owned(SweepFirst(cfg, s, time).table, f)
  {
    var r := SweepFirst(cfg, s, time);
    if StillHeld(cfg, s, time, f) {
      var i :| 0 <= i < |s.table| && s.table[i].file == f && !EndedAt(cfg, s, s.table[i], time);
      assert r.table[i].file == f;
    }
    if Owned(r.table, f) {
      var i :| 0 <= i < |r.table| && r.table[i].file == f;
      assert s.table[i].file == f;
    }
  }

  /** The file that a follow-on fragment is written to, or 0. */
  function Target(s: State, p: Packet): Handle
    requires p.body.FollowOn?
  {
    Routed(s.log, p.body.key)
  }

  lemma SweptOwnsFiles(cfg: Config, ps: seq<Packet>, time: int)
    ensures FilesOwned(SweepFirst(cfg, Run(cfg, ps), time))
  {
    RunOwnsFiles(cfg, ps);
    FilesKept(cfg, Run(cfg, ps), Sweep(time));
  }

  lemma TargetWasOpened(cfg: Config, ps: seq<Packet>, p: Packet)
    requires p.body.FollowOn?
    ensures Target(Run(cfg, ps), p) < Run(cfg, ps).nextFile
  {
    RunKnowsFiles(cfg, ps);
    RunOwnsFiles(cfg, ps);
    RunRoutes(cfg, Init(), ps);
    assert Lookup(Run(cfg, ps).frags, p.body.key) == Target(Run(cfg, ps), p);
  }

  /** When a follow-on fragment is about to be written, its file is open if and only if
      some slot holds it and is not ended by the sweep before the fragment. */
  lemma FragmentFileOpenIff(cfg: Config, ps: seq<Packet>, p: Packet)
    requires p.body.FollowOn? && Target(Run(cfg, ps), p) != 0
    ensures IsOpen(Before(cfg, ps, p).log, Target(Run(cfg, ps), p)) <==>
            StillHeld(cfg, Run(cfg, ps), p.time, Target(Run(cfg, ps), p))
  {
    var s, s1 := Run(cfg, ps), Before(cfg, ps, p);
    var f := Target(s, p);
    TargetWasOpened(cfg, ps, p);
    SweptOwnsFiles(cfg, ps, p.time);
    assert FileHistory(s1.table, s1.nextFile, s1.log, f);
    HeldIsOwned(cfg, s, p.time, f);
  }

  // ---- all writes of a capture ----

  /** Every write, fragments included, goes to a file that is open at that point. */
  ghost predicate AllWritesOpen(log: seq<Event>) {
    forall n :: 0 <= n < |log| && log[n].Wrote? ==> IsOpen(log[..n], log[n].file)
  }

  /** The packet is no follow-on fragment, or has no target, or its target is held. */
  ghost predicate TargetHeld(cfg: Config, s: State, p: Packet) {
    p.body.FollowOn? && Target(s, p) != 0 ==> StillHeld(cfg, s, p.time, Target(s, p))
  }

  lemma OpenWritesJoin(log: seq<Event>, more: seq<Event>)
    ensures AllWritesOpen(log + more) <==>
            AllWritesOpen(log)
            && forall m :: 0 <= m < |more| && more[m].Wrote? ==> IsOpen(log + more[..m], more[m].file)
  {
    var r := log + more;
    assert forall n :: 0 <= n < |log| ==> r[..n] == log[..n] && r[n] == log[n];
    assert forall m :: 0 <= m < |more| ==> r[..|log| + m] == log + more[..m] && r[|log| + m] == more[m];
  }

  lemma CallWritesStayOpen(log: seq<Event>, r: seq<Event>)
    requires log <= r && WritesAreOpen(r)
    requires forall n :: |log| <= n < |r| && r[n].Wrote? ==> r[n].via != Fragment
    ensures AllWritesOpen(r) <==> AllWritesOpen(log)
  {
    assert forall n :: 0 <= n < |log| ==> r[..n] == log[..n] && r[n] == log[n];
    assert forall n :: |log| <= n < |r| && r[n].Wrote? ==> IsCallWrite(r[n]);
  }

  lemma OtherPacketsWriteOpen(cfg: Config, ps: seq<Packet>, p: Packet)
    requires !p.body.FollowOn?
    ensures AllWritesOpen(Run(cfg, ps + [p]).log) <==> AllWritesOpen(Run(cfg, ps).log)
  {
    var s, r := Run(cfg, ps), Run(cfg, ps + [p]);
    assert (ps + [p])[..|ps + [p]| - 1] == ps;
    RunOwnsFiles(cfg, ps + [p]);
    OnlyFragmentsFollow(cfg, s, p);
    assert forall n :: |s.log| <= n < |r.log| ==> r.log[n] in Since(s, r);
    CallWritesStayOpen(s.log, r.log);
  }

  lemma SweepWritesStay(cfg: Config, ps: seq<Packet>, p: Packet)
    ensures AllWritesOpen(Before(cfg, ps, p).log) <==> AllWritesOpen(Run(cfg, ps).log)
  {
    var s, s1 := Run(cfg, ps), Before(cfg, ps, p);
    SweepFirstWritesNothing(cfg, s, p.time);
    var more := Since(s, s1);
    assert s1.log == s.log + more;
    OpenWritesJoin(s.log, more);
    assert forall m :: 0 <= m < |more| ==> more[m] in more;
  }

  lemma FragmentsWriteOpen(cfg: Config, ps: seq<Packet>, p: Packet)
    requires p.body.FollowOn?
    ensures AllWritesOpen(Run(cfg, ps + [p]).log) <==>
            AllWritesOpen(Run(cfg, ps).log) && TargetHeld(cfg, Run(cfg, ps), p)
  {
    var s1, f := Before(cfg, ps, p), Target(Run(cfg, ps), p);
    assert (ps + [p])[..|ps + [p]| - 1] == ps;
    FragmentsFollowTheirFirst(cfg, ps, p);
    SweepWritesStay(cfg, ps, p);
    var last := if p.body.more then [] else [LastFragment(p.body.key)];
    if f != 0 {
      FragmentFileOpenIff(cfg, ps, p);
      var more := [Wrote(Fragment, f, s1.pos)] + last;
      OpenWritesJoin(s1.log, more);
      assert s1.log + more[..0] == s1.log;
    } else {
      assert [] + last == last;
      OpenWritesJoin(s1.log, last);
    }
  }

  /** Over any capture only open files are written if and only if the target of every
      follow-on fragment is held when the fragment arrives. */
  lemma {:induction false} OnlyOpenFilesAreWrittenIff(cfg: Config, ps: seq<Packet>)
    ensures AllWritesOpen(Run(cfg, ps).log) <==>
            forall n :: 0 <= n < |ps| ==> TargetHeld(cfg, Run(cfg, ps[..n]), ps[n])
    decreases |ps|
  {
    if ps != [] {
      var n := |ps| - 1;
      var few := ps[..n];
      assert ps == few + [ps[n]];
      OnlyOpenFilesAreWrittenIff(cfg, few);
      assert forall m :: 0 <= m < n ==> few[..m] == ps[..m] && few[m] == ps[m];
      if ps[n].body.FollowOn? {
        FragmentsWriteOpen(cfg, few, ps[n]);
      } else {
        OtherPacketsWriteOpen(cfg, few, ps[n]);
      }
    }
  }
}
