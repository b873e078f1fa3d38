/** The name under which a dump file is deleted or announced is the slot's copy of the
    name it was opened with, cut to 127 characters. */
module FileNames {
  import opened Slots
  import opened Machine
  import opened Captures
  import opened Ownership
  import opened WholeRuns

  predicate IsEnding(e: Event) { e.Unlinked? || e.CloseTriggered? }

  /** Every file named in the history has been handed out. */
  ghost predicate NamesKnown(log: seq<Event>, next: Handle) {
    forall e :: e in log && (e.Opened? || IsEnding(e)) ==> e.file < next
  }

  /** A file that is open under some name is held under the cut name. */
  ghost predicate HeldAsCut(s: Slot, log: seq<Event>) {
    forall e :: e in log && e.Opened? && s.file != 0 && e.file == s.file ==> s.fileName == CutName(e.name)
  }

  ghost predicate EndedAsCut(log: seq<Event>) {
    forall e, d :: e in log && e.Opened? && d in log && IsEnding(d) && d.file == e.file ==> d.name == CutName(e.name)
  }

  ghost predicate Named(s: State) {
    && FilesOwned(s)
    && NamesKnown(s.log, s.nextFile)
    && (forall i :: 0 <= i < |s.table| ==> HeldAsCut(s.table[i], s.log))
    && EndedAsCut(s.log)
  }

  /** Events that neither open nor end a file, and slots that keep theirs or drop it. */
  lemma QuietKeepsNames(s: State, r: State, more: seq<Event>)
    requires Named(s) && FilesOwned(r) && s.nextFile <= r.nextFile
    requires r.log == s.log + more && forall e :: e in more ==> !e.Opened? && !IsEnding(e)
    requires forall i :: 0 <= i < |r.table| ==>
               || r.table[i].file == 0
               || (i < |s.table| && r.table[i].file == s.table[i].file && r.table[i].fileName == s.table[i].fileName)
    ensures Named(r)
  {
    forall i | 0 <= i < |r.table|
      ensures HeldAsCut(r.table[i], r.log)
    {
      if r.table[i].file != 0 {
        assert HeldAsCut(s.table[i], s.log);
      }
    }
  }

  // ---- the sweep ----

  /** What the sweep ends, some slot held, under that name. */
  lemma {:induction false} SweepEndsHeld(cfg: Config, t: Table, n: nat, now: int, e: Event)
    requires n <= |t| && e in SweepEvents(t, n, now, cfg)
    ensures !e.Opened?
    ensures IsEnding(e) ==> exists i :: 0 <= i < n && t[i].file == e.file != 0 && t[i].fileName == e.name
  {
    if e in SlotSweepEvents(t[n - 1], n - 1, now, cfg) {
      if IsEnding(e) {
        assert t[n - 1].file == e.file != 0 && t[n - 1].fileName == e.name;
      }
    } else {
      SweepEndsHeld(cfg, t, n - 1, now, e);
    }
  }

  lemma SweepKeepsNames(cfg: Config, s: State, now: int)
    requires Named(s)
    ensures Named(Cleaned(cfg, s, now))
  {
    var r := Cleaned(cfg, s, now);
    var more := SweepEvents(s.table, |s.table|, now, cfg);
    SweepKeepsFiles(cfg, s, now);
    forall e | e in more
      ensures !e.Opened?
      ensures IsEnding(e) ==>
                exists i :: 0 <= i < |s.table| && s.table[i].file == e.file != 0 && s.table[i].fileName == e.name
    {
      SweepEndsHeld(cfg, s.table, |s.table|, now, e);
    }
    EndingsJoin(s, more);
    forall i | 0 <= i < |r.table|
      ensures HeldAsCut(r.table[i], r.log)
    {
      assert HeldAsCut(s.table[i], s.log);
    }
  }

  lemma EndingsJoin(s: State, more: seq<Event>)
    requires Named(s)
    requires forall e :: e in more ==> !e.Opened?
    requires forall e :: e in more && IsEnding(e) ==>
               exists i :: 0 <= i < |s.table| && s.table[i].file == e.file != 0 && s.table[i].fileName == e.name
    ensures NamesKnown(s.log + more, s.nextFile) && EndedAsCut(s.log + more)
  {
    forall e, d | e in s.log && e.Opened? && d in more && IsEnding(d) && d.file == e.file
      ensures d.name == CutName(e.name)
    {
      var i :| 0 <= i < |s.table| && s.table[i].file == d.file != 0 && s.table[i].fileName == d.name;
      assert HeldAsCut(s.table[i], s.log);
    }
  }

  // ---- a new call ----

  lemma OpenKeepsNames(s: State, idx: nat, name: string)
    requires Named(s) && idx < |s.table| && s.table[idx].isUsed && s.table[idx].file == 0
    ensures Named(OpenedCall(s, idx, name, true))
  {
    var r := OpenedCall(s, idx, name, true);
    var more := [OpenAttempted, Opened(s.nextFile, name)];
    OpenKeepsFiles(s, idx, name, true);
    assert forall e :: e in more && e.Opened? ==> e == Opened(s.nextFile, name);
    forall i | 0 <= i < |r.table|
      ensures HeldAsCut(r.table[i], r.log)
    {
      assert HeldAsCut(s.table[i], s.log);
      assert s.table[i].file < s.nextFile;
    }
  }

  lemma NewCallKeepsNames(cfg: Config, s: State, a: Action)
    requires Named(s) && a.NewCall? && Enabled(s, a)
    ensures Named(Apply(cfg, s, a))
  {
    var s1 := AddedCall(s, a.id, a.caller, a.callee, a.time);
    var i := FreeSlot(s.table, 0);
    AddKeepsFiles(s, a.id, a.caller, a.callee, a.time);
    QuietKeepsNames(s, s1, [Added(i, a.time)]);
    if a.matched {
      var s2 := s1.(skip := s1.skip - 1, log := s1.log + [Matched]);
      QuietKeepsFiles(s1, s2, [Matched]);
      QuietKeepsNames(s1, s2, [Matched]);
      if s2.skip <= 0 {
        SampledKeepsNames(cfg, s2, i, a.name, a.openWorks);
      }
    }
  }

  lemma SampledKeepsNames(cfg: Config, s: State, i: nat, name: string, openWorks: bool)
    requires Named(s) && i < |s.table| && s.table[i].isUsed && s.table[i].file == 0
    ensures Named(OpenedCall(s.(skip := cfg.skipN), i, name, openWorks))
  {
    var s1 := s.(skip := cfg.skipN);
    QuietKeepsFiles(s, s1, []);
    QuietKeepsNames(s, s1, []);
    if openWorks {
      OpenKeepsNames(s1, i, name);
    } else {
      OpenKeepsFiles(s1, i, name, false);
      QuietKeepsNames(s1, OpenedCall(s1, i, name, false), [OpenAttempted]);
    }
  }

  // ---- all actions ----

  lemma OthersKeepNames(cfg: Config, s: State, a: Action)
    requires !a.Sweep? && !a.NewCall?
    ensures var r := Apply(cfg, s, a);
            && |r.table| == |s.table|
            && (forall i :: 0 <= i < |s.table| ==>
                  r.table[i].file == s.table[i].file && r.table[i].fileName == s.table[i].fileName)
  {
  }

  lemma NamedKept(cfg: Config, s: State, a: Action)
    requires Named(s)
    ensures Named(Apply(cfg, s, a))
  {
    var r := Apply(cfg, s, a);
    FilesKept(cfg, s, a);
    if a.Sweep? {
      SweepKeepsNames(cfg, s, a.now);
      QuietKeepsNames(Cleaned(cfg, s, a.now), r, []);
    } else if a.NewCall? {
      if Enabled(s, a) {
        NewCallKeepsNames(cfg, s, a);
      }
    } else {
      LogIs(cfg, s, a);
      OthersAreQuiet(cfg, s, a);
      OthersKeepSlots(cfg, s, a);
      OthersKeepNames(cfg, s, a);
      QuietKeepsNames(s, r, EventsOf(cfg, s, a));
    }
  }

  lemma RunIsNamed(cfg: Config, ps: seq<Packet>)
    ensures Named(Run(cfg, ps))
  {
    forall s, a | Named(s)
      ensures Named(Apply(cfg, s, a))
    {
      NamedKept(cfg, s, a);
    }
    AnythingIsCaused(ps);
    KeptByRun(cfg, s => Named(s), AnyAction, Init(), ps);
  }

  /** Over any capture and its final sweep, the name that is deleted or announced for a
      file is the one it was opened with if and only if that has at most 127
      characters; of a longer one it is the first 127. */
  lemma EndedNameIsOpenedIff(cfg: Config, ps: seq<Packet>, start: Event, end: Event)
    requires start.Opened? && IsEnding(end) && start.file == end.file
    requires start in Finish(cfg, Run(cfg, ps)).log && end in Finish(cfg, Run(cfg, ps)).log
    ensures end.name == if |start.name| <= 127 then start.name else start.name[..127]
    ensures end.name == start.name <==> |start.name| <= 127
  {
    RunIsNamed(cfg, ps);
    SweepKeepsNames(cfg, Run(cfg, ps), INT32_MAX);
    assert start.name[..|start.name|] == start.name;
  }
}
