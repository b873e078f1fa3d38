/** What is written where: a call's packets go to its own file while that is open,
    and the slot's packet counter counts the media among them. */
module FileSplit {
  import opened Slots
  import opened Machine
  import opened TableShape
  import opened Ownership

  // ---- only open files are written, fragments aside ----

  ghost predicate IsOpen(log: seq<Event>, f: Handle) {
    Times(log, Opening(f)) == 1 && Times(log, Closed(f)) == 0
  }

  predicate IsCallWrite(e: Event) { e.Wrote? && e.via != Fragment }

  ghost predicate WritesAreOpen(log: seq<Event>) {
    forall n :: 0 <= n < |log| && IsCallWrite(log[n]) ==> IsOpen(log[..n], log[n].file)
  }

  lemma OwnedIsOpen(s: State, i: nat)
    requires FilesOwned(s) && i < |s.table| && s.table[i].file != 0
    ensures IsOpen(s.log, s.table[i].file)
  {
    assert FileHistory(s.table, s.nextFile, s.log, s.table[i].file);
  }

  lemma WritesAppend(log: seq<Event>, more: seq<Event>)
    requires WritesAreOpen(log)
    requires forall m :: 0 <= m < |more| && IsCallWrite(more[m]) ==>
               IsOpen(log, more[m].file) && forall e :: e in more ==> !IsFileEvent(e)
    ensures WritesAreOpen(log + more)
  {
    var r := log + more;
    forall n | 0 <= n < |r| && IsCallWrite(r[n])
      ensures IsOpen(r[..n], r[n].file)
    {
      if n < |log| {
        assert r[..n] == log[..n];
      } else {
        var m := n - |log|;
        assert r[..n] == log + more[..m] && r[n] == more[m];
        QuietEvents(more[..m], r[n].file);
        AllTimesAppend(log, more[..m], r[n].file);
      }
    }
  }

  ghost predicate WritesOk(s: State) { FilesOwned(s) && WritesAreOpen(s.log) }

  lemma {:induction false} SweepWritesNothing(cfg: Config, t: Table, n: nat, now: int)
    requires n <= |t|
    ensures forall e :: e in SweepEvents(t, n, now, cfg) ==> e.Closed? || e.Unlinked? || e.CloseTriggered? || e.Expired?
  {
    if n > 0 {
      SweepWritesNothing(cfg, t, n - 1, now);
    }
  }

  /** The call writes of an action go to files owned before it; it then neither
      opens nor closes a file. */
  lemma ActionWritesOwned(cfg: Config, s: State, a: Action)
    ensures forall e :: e in EventsOf(cfg, s, a) && IsCallWrite(e) ==> Owned(s.table, e.file) && e.file != 0
    ensures (exists e :: e in EventsOf(cfg, s, a) && IsCallWrite(e)) ==>
              forall e :: e in EventsOf(cfg, s, a) ==> !IsFileEvent(e)
  {
    if a.Sweep? {
      SweepWritesNothing(cfg, s.table, |s.table|, a.now);
    } else if !a.NewCall? {
      OthersAreQuiet(cfg, s, a);
    }
  }

  lemma WritesKept(cfg: Config, s: State, a: Action)
    requires WritesOk(s)
    ensures WritesOk(Apply(cfg, s, a))
  {
    FilesKept(cfg, s, a);
    ActionWritesOwned(cfg, s, a);
    LogIs(cfg, s, a);
    var more := EventsOf(cfg, s, a);
    forall m | 0 <= m < |more| && IsCallWrite(more[m])
      ensures IsOpen(s.log, more[m].file)
    {
      assert more[m] in more;
      var i :| 0 <= i < |s.table| && s.table[i].file == more[m].file;
      OwnedIsOpen(s, i);
    }
    WritesAppend(s.log, more);
  }

  // ---- the packet counter ----

  /** How many media packets the history has written to a file. */
  function MediaWrites(log: seq<Event>, f: Handle): nat {
    if log == [] then 0
    else
      var e := log[|log| - 1];
      MediaWrites(log[..|log| - 1], f) + if e.Wrote? && e.via == Media && e.file == f then 1 else 0
  }

  lemma MediaWritesOne(log: seq<Event>, e: Event, f: Handle)
    ensures MediaWrites(log + [e], f) ==
            MediaWrites(log, f) + if e.Wrote? && e.via == Media && e.file == f then 1 else 0
  {
    assert (log + [e])[..|log + [e]| - 1] == log;
  }

  lemma {:induction false} MediaWritesQuiet(log: seq<Event>, more: seq<Event>, f: Handle)
    requires forall e :: e in more ==> !(e.Wrote? && e.via == Media && e.file == f)
    ensures MediaWrites(log + more, f) == MediaWrites(log, f)
    decreases |more|
  {
    if more == [] {
      assert log + more == log;
    } else {
      var n := |more| - 1;
      assert log + more == log + more[..n] + [more[n]];
      MediaWritesOne(log + more[..n], more[n], f);
      MediaWritesQuiet(log, more[..n], f);
    }
  }

  /** No file is mentioned before it is handed out. */
  ghost predicate FilesKnown(s: State) {
    && (forall e :: e in s.log && e.Wrote? ==> e.file < s.nextFile)
    && (forall key :: key in s.frags ==> s.frags[key] < s.nextFile)
  }

  /** The counter of a slot that owns a file counts the media written to it. */
  ghost predicate CountOk(s: Slot, log: seq<Event>) {
    s.packets == if s.file == 0 then 0 else MediaWrites(log, s.file)
  }

  ghost predicate Counted(s: State) {
    && Shaped(s) && FilesOwned(s) && FilesKnown(s)
    && forall i :: 0 <= i < |s.table| ==> CountOk(s.table[i], s.log)
  }

  lemma EventFilesKnown(cfg: Config, s: State, a: Action)
    requires FilesKnown(s) && FilesOwned(s)
    ensures forall e :: e in EventsOf(cfg, s, a) && e.Wrote? ==> e.file < s.nextFile
  {
    if a.Sweep? {
      SweepWritesNothing(cfg, s.table, |s.table|, a.now);
    }
  }

  lemma FragsKnown(cfg: Config, s: State, a: Action)
    requires FilesKnown(s) && FilesOwned(s)
    ensures s.nextFile <= Apply(cfg, s, a).nextFile
    ensures forall key :: key in Apply(cfg, s, a).frags ==> Apply(cfg, s, a).frags[key] < s.nextFile
  {
  }

  lemma KnownKept(cfg: Config, s: State, a: Action)
    requires FilesKnown(s) && FilesOwned(s)
    ensures FilesKnown(Apply(cfg, s, a))
  {
    LogIs(cfg, s, a);
    EventFilesKnown(cfg, s, a);
    FragsKnown(cfg, s, a);
  }

  /** A file not yet handed out has no media. */
  lemma {:induction false} UnknownHasNoMedia(log: seq<Event>, next: Handle)
    requires forall e :: e in log && e.Wrote? ==> e.file < next
    ensures MediaWrites(log, next) == 0
    decreases |log|
  {
    if log != [] {
      UnknownHasNoMedia(log[..|log| - 1], next);
    }
  }

  /** Slots that keep their file and counter stay right when no media is written. */
  lemma CountsStay(s: State, r: State, more: seq<Event>)
    requires r.log == s.log + more && forall e :: e in more ==> !(e.Wrote? && e.via == Media)
    requires |r.table| == |s.table|
    requires forall i :: 0 <= i < |s.table| ==> CountOk(s.table[i], s.log)
    requires forall i :: 0 <= i < |s.table| ==>
               r.table[i] == ZERO || (r.table[i].file == s.table[i].file && r.table[i].packets == s.table[i].packets)
    ensures forall i :: 0 <= i < |r.table| ==> CountOk(r.table[i], r.log)
  {
    forall i | 0 <= i < |r.table|
      ensures CountOk(r.table[i], r.log)
    {
      MediaWritesQuiet(s.log, more, s.table[i].file);
    }
  }

  lemma SweepCounts(cfg: Config, s: State, now: int)
    requires Counted(s)
    ensures forall i :: 0 <= i < |s.table| ==> CountOk(Cleaned(cfg, s, now).table[i], Cleaned(cfg, s, now).log)
  {
    SweepWritesNothing(cfg, s.table, |s.table|, now);
    CountsStay(s, Cleaned(cfg, s, now), SweepEvents(s.table, |s.table|, now, cfg));
  }

  lemma MediaCounts(cfg: Config, s: State, a: Action)
    requires Counted(s) && a.MediaIn? && Enabled(s, a)
    ensures var r := Apply(cfg, s, a); forall i :: 0 <= i < |r.table| ==> CountOk(r.table[i], r.log)
  {
    var r := Apply(cfg, s, a);
    var h := FindMedia(s.table, a.addr, a.port, a.ssrc, 0);
    var slot := s.table[h.slot];
    LogIs(cfg, s, a);
    if Records(cfg, slot, a.secondByte) {
      var quiet := [Attributed(h.slot, h.flow, a.ssrc), Recorded(h.slot, a.time)];
      var write := Wrote(Media, slot.file, s.pos);
      assert r.log == s.log + quiet + [write];
      forall i | 0 <= i < |r.table|
        ensures CountOk(r.table[i], r.log)
      {
        MediaWritesQuiet(s.log, quiet, r.table[i].file);
        MediaWritesOne(s.log + quiet, write, r.table[i].file);
      }
    } else {
      CountsStay(s, r, EventsOf(cfg, s, a));
    }
  }

  lemma NewCallCounts(cfg: Config, s: State, a: Action)
    requires Counted(s) && a.NewCall? && Enabled(s, a)
    ensures var r := Apply(cfg, s, a); forall i :: 0 <= i < |r.table| ==> CountOk(r.table[i], r.log)
  {
    var r := Apply(cfg, s, a);
    var idx := FreeSlot(s.table, 0);
    LogIs(cfg, s, a);
    forall i | 0 <= i < |r.table|
      ensures CountOk(r.table[i], r.log)
    {
      MediaWritesQuiet(s.log, EventsOf(cfg, s, a), r.table[i].file);
      if i == idx {
        RecycledLikeFresh(s.table, a.id, a.caller, a.callee, a.time);
        UnknownHasNoMedia(s.log, s.nextFile);
      } else {
        assert r.table[i] == s.table[i];
      }
    }
  }

  lemma OthersKeepCounts(cfg: Config, s: State, a: Action)
    requires !a.Sweep? && !a.NewCall? && !a.MediaIn?
    ensures var r := Apply(cfg, s, a);
            && |r.table| == |s.table|
            && (forall i :: 0 <= i < |s.table| ==>
                  r.table[i].file == s.table[i].file && r.table[i].packets == s.table[i].packets)
    ensures forall e :: e in EventsOf(cfg, s, a) ==> !(e.Wrote? && e.via == Media)
  {
  }

  lemma CountsKept(cfg: Config, s: State, a: Action)
    requires Counted(s)
    ensures Counted(Apply(cfg, s, a))
  {
    ShapeKept(cfg, s, a);
    FilesKept(cfg, s, a);
    KnownKept(cfg, s, a);
    if a.Sweep? {
      SweepCounts(cfg, s, a.now);
    } else if Enabled(s, a) && a.MediaIn? {
      MediaCounts(cfg, s, a);
    } else if Enabled(s, a) && a.NewCall? {
      NewCallCounts(cfg, s, a);
    } else if Enabled(s, a) {
      LogIs(cfg, s, a);
      OthersKeepCounts(cfg, s, a);
      CountsStay(s, Apply(cfg, s, a), EventsOf(cfg, s, a));
    }
  }
}
