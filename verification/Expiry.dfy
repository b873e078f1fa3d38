/** When calls expire: the two clocks of a slot are the times of its last recorded
    media packet and of its creation, and the sweep keeps both recent. */
module Expiry {
  import opened Slots
  import opened Machine
  import opened TableShape
  import opened FileSplit
  import opened SsrcSticky

  // ---- the clocks are the history ----

  /** The time of the last event that set a clock of slot `i`: its creation or, for
      the idle clock, also a recorded media packet. */
  function ClockOf(log: seq<Event>, i: nat, idle: bool): int {
    if log == [] then 0
    else
      var e := log[|log| - 1];
      if SetsClock(e, i, idle) then e.time else ClockOf(log[..|log| - 1], i, idle)
  }

  predicate SetsClock(e: Event, i: nat, idle: bool) {
    (e.Added? && e.slot == i) || (idle && e.Recorded? && e.slot == i)
  }

  lemma ClockOne(log: seq<Event>, e: Event, i: nat, idle: bool)
    ensures ClockOf(log + [e], i, idle) == if SetsClock(e, i, idle) then e.time else ClockOf(log, i, idle)
  {
    assert (log + [e])[..|log + [e]| - 1] == log;
  }

  lemma {:induction false} ClockQuiet(log: seq<Event>, more: seq<Event>, i: nat, idle: bool)
    requires forall e :: e in more ==> !SetsClock(e, i, idle)
    ensures ClockOf(log + more, i, idle) == ClockOf(log, i, idle)
    decreases |more|
  {
    if more == [] {
      assert log + more == log;
    } else {
      var n := |more| - 1;
      assert log + more == log + more[..n] + [more[n]];
      ClockOne(log + more[..n], more[n], i, idle);
      ClockQuiet(log, more[..n], i, idle);
    }
  }

  ghost predicate ClocksAreHistory(s: State) {
    && Shaped(s)
    && forall i :: 0 <= i < |s.table| && s.table[i].isUsed ==>
         s.table[i].lastTime == ClockOf(s.log, i, true) && s.table[i].firstTime == ClockOf(s.log, i, false)
  }

  /** Whether the action sets a clock of slot `i`. */
  ghost predicate Touches(cfg: Config, s: State, a: Action, i: nat) {
    || (a.NewCall? && Enabled(s, a) && i == FreeSlot(s.table, 0))
    || (a.MediaIn? && Enabled(s, a) && i == FindMedia(s.table, a.addr, a.port, a.ssrc, 0).slot)
  }

  lemma UntouchedClocks(cfg: Config, s: State, a: Action, i: nat)
    requires !Touches(cfg, s, a, i)
    requires i < |Apply(cfg, s, a).table| && Apply(cfg, s, a).table[i] != ZERO
    ensures i < |s.table| && s.table[i].isUsed == Apply(cfg, s, a).table[i].isUsed
    ensures Apply(cfg, s, a).table[i].lastTime == s.table[i].lastTime
    ensures Apply(cfg, s, a).table[i].firstTime == s.table[i].firstTime
  {
  }

  lemma UntouchedQuiet(cfg: Config, s: State, a: Action, i: nat, idle: bool)
    requires !Touches(cfg, s, a, i)
    ensures forall e :: e in EventsOf(cfg, s, a) ==> !SetsClock(e, i, idle)
  {
    if a.Sweep? {
      SweepWritesNothing(cfg, s.table, |s.table|, a.now);
    }
  }

  /** A new call's events: it is added, and then perhaps matched and given a file. */
  lemma NewCallEvents(cfg: Config, s: State, a: Action)
    requires a.NewCall? && Enabled(s, a)
    ensures var ev := EventsOf(cfg, s, a);
            && ev != [] && ev[0] == Added(FreeSlot(s.table, 0), a.time)
            && forall e :: e in ev[1..] ==> e.Matched? || e.OpenAttempted? || e.Opened?
  {
  }

  lemma NewCallClocks(cfg: Config, s: State, a: Action, idle: bool)
    requires a.NewCall? && Enabled(s, a)
    ensures var i := FreeSlot(s.table, 0);
            && i < |Apply(cfg, s, a).table|
            && ClockOf(s.log + EventsOf(cfg, s, a), i, idle) == a.time
            && Apply(cfg, s, a).table[i].lastTime == a.time && Apply(cfg, s, a).table[i].firstTime == a.time
  {
    var i := FreeSlot(s.table, 0);
    var first, more := Added(i, a.time), EventsOf(cfg, s, a)[1..];
    NewCallEvents(cfg, s, a);
    assert s.log + EventsOf(cfg, s, a) == s.log + [first] + more;
    ClockOne(s.log, first, i, idle);
    ClockQuiet(s.log + [first], more, i, idle);
  }

  lemma MediaClocks(cfg: Config, s: State, a: Action, idle: bool)
    requires a.MediaIn? && Enabled(s, a)
    ensures var i := FindMedia(s.table, a.addr, a.port, a.ssrc, 0).slot;
            var records := Records(cfg, s.table[i], a.secondByte);
            && ClockOf(s.log + EventsOf(cfg, s, a), i, idle) ==
                 (if idle && records then a.time else ClockOf(s.log, i, idle))
            && Apply(cfg, s, a).table[i].lastTime == (if records then a.time else s.table[i].lastTime)
            && Apply(cfg, s, a).table[i].firstTime == s.table[i].firstTime
            && Apply(cfg, s, a).table[i].isUsed == s.table[i].isUsed
  {
    var i := FindMedia(s.table, a.addr, a.port, a.ssrc, 0).slot;
    var ev := EventsOf(cfg, s, a);
    ClockOne(s.log, ev[0], i, idle);
    if Records(cfg, s.table[i], a.secondByte) {
      assert s.log + ev == s.log + [ev[0]] + [ev[1]] + [ev[2]];
      ClockOne(s.log + [ev[0]], ev[1], i, idle);
      ClockOne(s.log + [ev[0]] + [ev[1]], ev[2], i, idle);
    }
  }

  lemma ClocksKept(cfg: Config, s: State, a: Action)
    requires ClocksAreHistory(s)
    ensures ClocksAreHistory(Apply(cfg, s, a))
  {
    var r := Apply(cfg, s, a);
    ShapeKept(cfg, s, a);
    LogIs(cfg, s, a);
    forall i | 0 <= i < |r.table| && r.table[i].isUsed
      ensures r.table[i].lastTime == ClockOf(r.log, i, true) && r.table[i].firstTime == ClockOf(r.log, i, false)
    {
      if !Touches(cfg, s, a, i) {
        UntouchedClocks(cfg, s, a, i);
        UntouchedQuiet(cfg, s, a, i, true);
        UntouchedQuiet(cfg, s, a, i, false);
        ClockQuiet(s.log, EventsOf(cfg, s, a), i, true);
        ClockQuiet(s.log, EventsOf(cfg, s, a), i, false);
      } else if a.NewCall? {
        NewCallClocks(cfg, s, a, true);
        NewCallClocks(cfg, s, a, false);
      } else {
        MediaClocks(cfg, s, a, true);
        MediaClocks(cfg, s, a, false);
      }
    }
  }

  // ---- the sweep keeps them recent ----

  /** At time `now` no used slot is later, and none was overdue at the last sweep. */
  ghost predicate Recent(cfg: Config, s: State, now: int) {
    && 0 <= s.lastCleanup <= now < WORD
    && forall i :: 0 <= i < |s.table| && s.table[i].isUsed ==>
         && s.table[i].lastTime <= now && s.table[i].firstTime <= now
         && s.lastCleanup - s.table[i].lastTime <= IDLE_LIMIT
         && s.lastCleanup - s.table[i].firstTime <= cfg.limit
  }

  /** The action happens at time `now`. */
  predicate AtTime(a: Action, now: int) {
    && (a.Sweep? ==> a.now == now)
    && (a.MediaIn? ==> a.time == now)
    && (a.NewCall? ==> a.time == now)
  }

  lemma RecentKept(cfg: Config, s: State, a: Action, now: int)
    requires cfg.limit >= 0 && Recent(cfg, s, now) && AtTime(a, now)
    ensures Recent(cfg, Apply(cfg, s, a), now)
  {
    var r := Apply(cfg, s, a);
    forall i | 0 <= i < |r.table| && r.table[i].isUsed
      ensures r.table[i].lastTime <= now && r.table[i].firstTime <= now
      ensures r.lastCleanup - r.table[i].lastTime <= IDLE_LIMIT
      ensures r.lastCleanup - r.table[i].firstTime <= cfg.limit
    {
      if !Touches(cfg, s, a, i) {
        UntouchedClocks(cfg, s, a, i);
        SweepTimes(cfg, s, a, i);
      } else if a.NewCall? {
        NewCallClocks(cfg, s, a, true);
      } else {
        MediaClocks(cfg, s, a, true);
      }
    }
    SweepClock(cfg, s, a, now);
  }

  lemma SweepTimes(cfg: Config, s: State, a: Action, i: nat)
    requires i < |s.table| && i < |Apply(cfg, s, a).table| && Apply(cfg, s, a).table[i].isUsed && s.table[i].isUsed
    ensures a.Sweep? ==> a.now - s.table[i].lastTime <= IDLE_LIMIT && a.now - s.table[i].firstTime <= cfg.limit
  {
  }

  lemma SweepClock(cfg: Config, s: State, a: Action, now: int)
    requires 0 <= now < WORD && AtTime(a, now)
    ensures Apply(cfg, s, a).lastCleanup == if a.Sweep? then now else s.lastCleanup
  {
  }

  // ---- the sweep expires exactly what is overdue ----

  lemma ExpiredIff(cfg: Config, s: State, a: Action, i: nat)
    ensures Expired(i) in EventsOf(cfg, s, a) <==>
            a.Sweep? && i < |s.table| && Expires(s.table[i], a.now, cfg.limit)
  {
    if a.Sweep? {
      SweepExpires(cfg, s.table, |s.table|, a.now, i);
    }
  }
}
