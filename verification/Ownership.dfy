/** Who owns which dump file: each open file belongs to exactly one used slot, every
    opened file is closed at most once, and a closed file is either deleted or
    announced by the close trigger, never both. */
module Ownership {
  import opened Slots
  import opened Machine

  /** The event without the name of the file. */
  function Deed(e: Event): Event {
    match e
    case Opened(f, _) => Opening(f)
    case Unlinked(f, _) => Deleting(f)
    case CloseTriggered(f, _) => Announcing(f)
    case _ => e
  }

  function Opening(f: Handle): Event { Opened(f, "") }

  function Deleting(f: Handle): Event { Unlinked(f, "") }

  function Announcing(f: Handle): Event { CloseTriggered(f, "") }

  /** How often an event stands in the history, whatever the names of the files. */
  function Times(log: seq<Event>, e: Event): nat {
    if log == [] then 0 else Times(log[..|log| - 1], e) + (if Deed(log[|log| - 1]) == e then 1 else 0)
  }

  lemma {:induction false} TimesAppend(log: seq<Event>, more: seq<Event>, e: Event)
    ensures Times(log + more, e) == Times(log, e) + Times(more, e)
    decreases |more|
  {
    if more == [] {
      assert log + more == log;
    } else {
      var n := |more| - 1;
      assert (log + more)[..|log + more| - 1] == log + more[..n];
      TimesAppend(log, more[..n], e);
    }
  }

  lemma TimesOfOne(a: Event, e: Event)
    ensures Times([a], e) == if Deed(a) == e then 1 else 0
  {
    assert [a][..0] == [];
  }

  lemma {:induction false} TimesAbsent(log: seq<Event>, e: Event)
    requires forall x :: x in log ==> Deed(x) != e
    ensures Times(log, e) == 0
    decreases |log|
  {
    if log != [] {
      TimesAbsent(log[..|log| - 1], e);
    }
  }

  ghost predicate Owned(t: Table, f: Handle) { exists i :: 0 <= i < |t| && t[i].file == f }

  ghost predicate FilesApart(t: Table, next: Handle) {
    && (forall i :: 0 <= i < |t| && t[i].file != 0 ==> t[i].isUsed && t[i].file < next)
    && (forall i, j :: 0 <= i < j < |t| && t[i].file != 0 ==> t[i].file != t[j].file)
  }

  /** Each file handed out so far was opened once; it has been closed once if no slot
      owns it any more, and not at all otherwise; each closing ended one way. */
  ghost predicate FileHistory(t: Table, next: Handle, log: seq<Event>, f: Handle) {
    && Times(log, Opening(f)) == (if 1 <= f < next then 1 else 0)
    && Times(log, Closed(f)) == (if 1 <= f < next && !Owned(t, f) then 1 else 0)
    && Times(log, Deleting(f)) + Times(log, Announcing(f)) == Times(log, Closed(f))
  }

  ghost predicate FilesOwned(s: State) {
    && s.nextFile >= 1
    && FilesApart(s.table, s.nextFile)
    && forall f :: FileHistory(s.table, s.nextFile, s.log, f)
  }

  predicate IsFileEvent(e: Event) {
    e.Opened? || e.Closed? || e.Unlinked? || e.CloseTriggered?
  }

  lemma QuietEvents(more: seq<Event>, f: Handle)
    requires forall e :: e in more ==> !IsFileEvent(e)
    ensures Times(more, Opening(f)) == Times(more, Closed(f)) == 0
    ensures Times(more, Deleting(f)) == Times(more, Announcing(f)) == 0
  {
    TimesAbsent(more, Opening(f));
    TimesAbsent(more, Closed(f));
    TimesAbsent(more, Deleting(f));
    TimesAbsent(more, Announcing(f));
  }

  /** Actions that neither open nor close: the slots keep their files. */
  lemma QuietKeepsFiles(s: State, r: State, more: seq<Event>)
    requires FilesOwned(s) && r.nextFile == s.nextFile
    requires r.log == s.log + more && forall e :: e in more ==> !IsFileEvent(e)
    requires |r.table| == |s.table|
    requires forall i :: 0 <= i < |s.table| ==> r.table[i].file == s.table[i].file
    requires forall i :: 0 <= i < |s.table| ==> s.table[i].isUsed ==> r.table[i].isUsed
    ensures FilesOwned(r)
  {
    forall f
      ensures FileHistory(r.table, r.nextFile, r.log, f)
    {
      assert FileHistory(s.table, s.nextFile, s.log, f);
      QuietEvents(more, f);
      AllTimesAppend(s.log, more, f);
      assert Owned(r.table, f) == Owned(s.table, f);
    }
  }

  // ---- the sweep ----

  /** The slot owns `f` and expires. */
  predicate Frees(s: Slot, now: int, limit: int, f: Handle) {
    f != 0 && s.file == f && Expires(s, now, limit)
  }

  /** One of the first `n` slots owns `f` and expires. */
  ghost predicate Releases(t: Table, n: nat, now: int, limit: int, f: Handle) {
    exists i :: 0 <= i < n && i < |t| && Frees(t[i], now, limit, f)
  }

  lemma ReleasesStep(t: Table, n: nat, now: int, limit: int, next: Handle, f: Handle)
    requires 0 < n <= |t| && FilesApart(t, next)
    ensures Releases(t, n, now, limit, f) <==> Releases(t, n - 1, now, limit, f) || Frees(t[n - 1], now, limit, f)
    ensures !(Releases(t, n - 1, now, limit, f) && Frees(t[n - 1], now, limit, f))
  {
  }

  lemma AllTimesAppend(log: seq<Event>, more: seq<Event>, f: Handle)
    ensures Times(log + more, Opening(f)) == Times(log, Opening(f)) + Times(more, Opening(f))
    ensures Times(log + more, Closed(f)) == Times(log, Closed(f)) + Times(more, Closed(f))
    ensures Times(log + more, Deleting(f)) == Times(log, Deleting(f)) + Times(more, Deleting(f))
    ensures Times(log + more, Announcing(f)) == Times(log, Announcing(f)) + Times(more, Announcing(f))
  {
    TimesAppend(log, more, Opening(f));
    TimesAppend(log, more, Closed(f));
    TimesAppend(log, more, Deleting(f));
    TimesAppend(log, more, Announcing(f));
  }

  /** How often `f` is opened, closed, and ended one way or the other. */
  datatype Tally = Tally(openings: nat, closings: nat, endings: nat)

  function TallyOf(ev: seq<Event>, f: Handle): Tally {
    Tally(Times(ev, Opening(f)), Times(ev, Closed(f)), Times(ev, Deleting(f)) + Times(ev, Announcing(f)))
  }

  function CloseTimes(n: nat): Tally { Tally(0, n, n) }

  lemma TallyOfOne(e: Event, f: Handle)
    ensures TallyOf([e], f) ==
            Tally(if Deed(e) == Opening(f) then 1 else 0, if Deed(e) == Closed(f) then 1 else 0,
                  if Deed(e) == Deleting(f) || Deed(e) == Announcing(f) then 1 else 0)
  {
    TimesOfOne(e, Opening(f));
    TimesOfOne(e, Closed(f));
    TimesOfOne(e, Deleting(f));
    TimesOfOne(e, Announcing(f));
  }

  /** The three events that end a file. */
  lemma EndingTally(cfg: Config, s: Slot, i: nat, f: Handle)
    ensures TallyOf([Closed(s.file), Ending(s, cfg), Expired(i)], f) == CloseTimes(if s.file == f then 1 else 0)
  {
    var a, b, c := Closed(s.file), Ending(s, cfg), Expired(i);
    TallyOfOne(a, f);
    TallyOfOne(b, f);
    TallyOfOne(c, f);
    TallyAppend([a], [b], f);
    TallyAppend([a] + [b], [c], f);
    assert [a, b, c] == [a] + [b] + [c];
  }

  lemma SlotCloses(cfg: Config, s: Slot, i: nat, now: int, f: Handle)
    ensures TallyOf(SlotSweepEvents(s, i, now, cfg), f) == CloseTimes(if Frees(s, now, cfg.limit, f) then 1 else 0)
  {
    if Expires(s, now, cfg.limit) {
      TallyOfOne(Expired(i), f);
      if s.file != 0 {
        EndingTally(cfg, s, i, f);
      }
    }
  }

  lemma TallyAppend(a: seq<Event>, b: seq<Event>, f: Handle)
    ensures TallyOf(a + b, f) ==
            Tally(TallyOf(a, f).openings + TallyOf(b, f).openings,
                  TallyOf(a, f).closings + TallyOf(b, f).closings,
                  TallyOf(a, f).endings + TallyOf(b, f).endings)
  {
    AllTimesAppend(a, b, f);
  }

  /** How many of the first `n` slots own `f` and expire. */
  function FreeingSlots(t: Table, n: nat, now: int, limit: int, f: Handle): nat
    requires n <= |t|
  {
    if n == 0 then 0
    else FreeingSlots(t, n - 1, now, limit, f) + if Frees(t[n - 1], now, limit, f) then 1 else 0
  }

  lemma NothingCloses(f: Handle)
    ensures TallyOf([], f) == CloseTimes(0)
  {
  }

  lemma ClosesAdd(a: seq<Event>, b: seq<Event>, f: Handle, m: nat, n: nat)
    ensures TallyOf(a, f) == CloseTimes(m) && TallyOf(b, f) == CloseTimes(n) ==>
              TallyOf(a + b, f) == CloseTimes(m + n)
  {
    TallyAppend(a, b, f);
  }

  /** The sweep closes `f` once for each such slot, and opens nothing. */
  lemma {:induction false} SweepCloses(cfg: Config, t: Table, n: nat, now: int, f: Handle)
    requires n <= |t|
    ensures TallyOf(SweepEvents(t, n, now, cfg), f) == CloseTimes(FreeingSlots(t, n, now, cfg.limit, f))
  {
    if n == 0 {
      NothingCloses(f);
    } else {
      var before, last := SweepEvents(t, n - 1, now, cfg), SlotSweepEvents(t[n - 1], n - 1, now, cfg);
      SweepCloses(cfg, t, n - 1, now, f);
      SlotCloses(cfg, t[n - 1], n - 1, now, f);
      var closes := if Frees(t[n - 1], now, cfg.limit, f) then 1 else 0;
      ClosesAdd(before, last, f, FreeingSlots(t, n - 1, now, cfg.limit, f), closes);
      assert SweepEvents(t, n, now, cfg) == before + last;
    }
  }

  /** There is at most one such slot. */
  lemma {:induction false} OneFreeingSlot(t: Table, n: nat, now: int, limit: int, next: Handle, f: Handle)
    requires n <= |t| && FilesApart(t, next)
    ensures FreeingSlots(t, n, now, limit, f) == if Releases(t, n, now, limit, f) then 1 else 0
  {
    if n > 0 {
      OneFreeingSlot(t, n - 1, now, limit, next, f);
      ReleasesStep(t, n, now, limit, next, f);
    }
  }

  /** After the sweep a file is owned exactly if its owner did not expire. */
  lemma SweepReleases(t: Table, now: int, limit: int, next: Handle, f: Handle)
    requires FilesApart(t, next) && f != 0
    ensures Owned(Swept(t, now, limit), f) <==> Owned(t, f) && !Releases(t, |t|, now, limit, f)
    ensures Releases(t, |t|, now, limit, f) ==> Owned(t, f) && f < next
  {
    var r := Swept(t, now, limit);
    if Owned(t, f) && !Releases(t, |t|, now, limit, f) {
      var i :| 0 <= i < |t| && t[i].file == f;
      assert r[i] == t[i];
    }
  }

  lemma HistoryIsTally(t: Table, next: Handle, log: seq<Event>, f: Handle)
    ensures var closings := if 1 <= f < next && !Owned(t, f) then 1 else 0;
            FileHistory(t, next, log, f) <==>
            TallyOf(log, f) == Tally(if 1 <= f < next then 1 else 0, closings, closings)
  {
  }

  lemma SweepHistory(cfg: Config, s: State, now: int, f: Handle)
    requires FilesApart(s.table, s.nextFile) && FileHistory(s.table, s.nextFile, s.log, f)
    ensures var r := Cleaned(cfg, s, now); FileHistory(r.table, r.nextFile, r.log, f)
  {
    var ev := SweepEvents(s.table, |s.table|, now, cfg);
    var r := Cleaned(cfg, s, now);
    HistoryIsTally(s.table, s.nextFile, s.log, f);
    HistoryIsTally(r.table, r.nextFile, r.log, f);
    TallyAppend(s.log, ev, f);
    SweepCloses(cfg, s.table, |s.table|, now, f);
    OneFreeingSlot(s.table, |s.table|, now, cfg.limit, s.nextFile, f);
    if f != 0 {
      SweepReleases(s.table, now, cfg.limit, s.nextFile, f);
    }
  }

  lemma SweepKeepsFiles(cfg: Config, s: State, now: int)
    requires FilesOwned(s)
    ensures FilesOwned(Cleaned(cfg, s, now))
  {
    var r := Cleaned(cfg, s, now);
    assert FilesApart(r.table, r.nextFile);
    forall f
      ensures FileHistory(r.table, r.nextFile, r.log, f)
    {
      SweepHistory(cfg, s, now, f);
    }
  }

  // ---- opening ----

  lemma AddKeepsFiles(s: State, id: string, caller: NameText, callee: NameText, time: int)
    requires FilesOwned(s)
    ensures FilesOwned(AddedCall(s, id, caller, callee, time))
  {
    var r := AddedCall(s, id, caller, callee, time);
    var idx := FreeSlot(s.table, 0);
    assert forall i :: 0 <= i < |s.table| ==> r.table[i].file == s.table[i].file;
    forall f
      ensures FileHistory(r.table, r.nextFile, r.log, f)
    {
      assert FileHistory(s.table, s.nextFile, s.log, f);
      QuietEvents([Added(idx, time)], f);
      AllTimesAppend(s.log, [Added(idx, time)], f);
      if f != 0 {
        assert Owned(r.table, f) == Owned(s.table, f);
      }
    }
  }

  lemma OpenTally(next: Handle, name: string, f: Handle)
    ensures TallyOf([OpenAttempted, Opened(next, name)], f) == Tally(if f == next then 1 else 0, 0, 0)
  {
    TallyOfOne(OpenAttempted, f);
    TallyOfOne(Opened(next, name), f);
    AllTimesAppend([OpenAttempted], [Opened(next, name)], f);
    assert [OpenAttempted, Opened(next, name)] == [OpenAttempted] + [Opened(next, name)];
  }

  lemma OpenOwner(t: Table, idx: nat, s: Slot, f: Handle)
    requires idx < |t| && t[idx].file == 0 && f != 0
    ensures Owned(t[idx := s], f) <==> Owned(t, f) || f == s.file
  {
    var r := t[idx := s];
    if f == s.file {
      assert r[idx].file == f;
    } else if Owned(t, f) {
      var i :| 0 <= i < |t| && t[i].file == f;
      assert r[i].file == f;
    }
  }

  lemma OpenHistory(s: State, idx: nat, name: string, f: Handle)
    requires FilesApart(s.table, s.nextFile) && FileHistory(s.table, s.nextFile, s.log, f) && s.nextFile >= 1
    requires idx < |s.table| && s.table[idx].file == 0
    ensures var r := OpenedCall(s, idx, name, true); FileHistory(r.table, r.nextFile, r.log, f)
  {
    OpenTally(s.nextFile, name, f);
    AllTimesAppend(s.log, [OpenAttempted, Opened(s.nextFile, name)], f);
    if f != 0 {
      OpenOwner(s.table, idx, OpenedCall(s, idx, name, true).table[idx], f);
    }
  }

  lemma OpenKeepsFiles(s: State, idx: nat, name: string, openWorks: bool)
    requires FilesOwned(s) && idx < |s.table| && s.table[idx].isUsed && s.table[idx].file == 0
    ensures FilesOwned(OpenedCall(s, idx, name, openWorks))
  {
    var r := OpenedCall(s, idx, name, openWorks);
    if !openWorks {
      QuietKeepsFiles(s, r, [OpenAttempted]);
    } else {
      forall f
        ensures FileHistory(r.table, r.nextFile, r.log, f)
      {
        OpenHistory(s, idx, name, f);
      }
    }
  }

  lemma SampleKeepsFiles(cfg: Config, s: State, idx: nat, name: string, openWorks: bool)
    requires FilesOwned(s) && idx < |s.table| && s.table[idx].isUsed && s.table[idx].file == 0
    ensures FilesOwned(SampledCall(cfg, s, idx, name, openWorks))
  {
    var s1 := s.(skip := s.skip - 1, log := s.log + [Matched]);
    QuietKeepsFiles(s, s1, [Matched]);
    QuietKeepsFiles(s, s1.(skip := cfg.skipN), [Matched]);
    OpenKeepsFiles(s1.(skip := cfg.skipN), idx, name, openWorks);
  }

  // ---- all actions ----

  /** Actions other than a sweep or a new call leave every slot its file. */
  lemma OthersKeepSlots(cfg: Config, s: State, a: Action)
    requires !a.Sweep? && !a.NewCall?
    ensures var r := Apply(cfg, s, a);
            && r.nextFile == s.nextFile && |r.table| == |s.table|
            && (forall i :: 0 <= i < |s.table| ==> r.table[i].file == s.table[i].file)
            && (forall i :: 0 <= i < |s.table| ==> r.table[i].isUsed == s.table[i].isUsed)
  {
  }

  lemma OthersAreQuiet(cfg: Config, s: State, a: Action)
    requires !a.Sweep? && !a.NewCall?
    ensures forall e :: e in EventsOf(cfg, s, a) ==> !IsFileEvent(e)
  {
  }

  lemma FilesKept(cfg: Config, s: State, a: Action)
    requires FilesOwned(s)
    ensures FilesOwned(Apply(cfg, s, a))
  {
    if a.Sweep? {
      SweepKeepsFiles(cfg, s, a.now);
      QuietKeepsFiles(Cleaned(cfg, s, a.now), Apply(cfg, s, a), []);
    } else if a.NewCall? {
      if Enabled(s, a) {
        AddKeepsFiles(s, a.id, a.caller, a.callee, a.time);
        if a.matched {
          var s1 := AddedCall(s, a.id, a.caller, a.callee, a.time);
          SampleKeepsFiles(cfg, s1, FreeSlot(s.table, 0), a.name, a.openWorks);
        }
      }
    } else {
      OthersAreQuiet(cfg, s, a);
      OthersKeepSlots(cfg, s, a);
      LogIs(cfg, s, a);
      QuietKeepsFiles(s, Apply(cfg, s, a), EventsOf(cfg, s, a));
    }
  }
}
