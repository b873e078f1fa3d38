/** Calls that stay active: recorded media without long gaps keeps a call from expiring. */
module SteadyCalls {
  import opened Slots
  import opened Machine
  import opened Captures
  import opened TableShape
  import opened FileSplit
  import opened SsrcSticky
  import opened Expiry
  import opened WholeRuns

  // ---- the events that set the idle clock ----

  /** Since `s0`, each event that set the idle clock of slot `i` (a recorded media packet
      or a new call there) came at most 300 s after the one before it. */
  ghost predicate NoLongGap(s0: State, log: seq<Event>, i: nat) {
    forall n :: |s0.log| <= n < |log| && SetsClock(log[n], i, true) ==>
      log[n].time - ClockOf(log[..n], i, true) <= 300
  }

  /** Between two points of the history nothing sets the clock, or there is a first event
      that does. */
  lemma {:induction false} NextSetting(log: seq<Event>, from: nat, i: nat, idle: bool) returns (n: nat)
    requires from <= |log|
    ensures from <= n <= |log| && ClockOf(log[..n], i, idle) == ClockOf(log[..from], i, idle)
    ensures n < |log| ==> SetsClock(log[n], i, idle)
    decreases |log| - from
  {
    if from == |log| || SetsClock(log[from], i, idle) {
      n := from;
    } else {
      n := NextSetting(log, from + 1, i, idle);
      assert log[..from + 1] == log[..from] + [log[from]];
      ClockOne(log[..from], log[from], i, idle);
    }
  }

  /** Everything added to the history since `s0` that carries a time is not earlier. */
  ghost predicate NoEarlier(s0: State, s: State, time: int) {
    && s0.log <= s.log
    && forall e :: e in Since(s0, s) ==> (e.Added? ==> e.time >= time) && (e.Recorded? ==> e.time >= time)
  }

  lemma EventTimes(cfg: Config, s: State, a: Action, time: int)
    requires (a.MediaIn? ==> a.time >= time) && (a.NewCall? ==> a.time >= time)
    ensures forall e :: e in EventsOf(cfg, s, a) ==> (e.Added? ==> e.time >= time) && (e.Recorded? ==> e.time >= time)
  {
    if a.Sweep? {
      SweepWritesNothing(cfg, s.table, |s.table|, a.now);
    }
  }

  lemma NoEarlierKept(cfg: Config, s0: State, s: State, a: Action, time: int)
    requires NoEarlier(s0, s, time)
    requires (a.MediaIn? ==> a.time >= time) && (a.NewCall? ==> a.time >= time)
    ensures NoEarlier(s0, Apply(cfg, s, a), time)
  {
    LogIs(cfg, s, a);
    EventTimes(cfg, s, a, time);
    assert Since(s0, Apply(cfg, s, a)) == Since(s0, s) + EventsOf(cfg, s, a);
  }

  lemma RunIsNoEarlier(cfg: Config, s: State, ps: seq<Packet>, time: int)
    requires forall p :: p in ps ==> p.time >= time
    ensures NoEarlier(s, RunFrom(cfg, s, ps), time)
  {
    var kind := (a: Action) => (a.MediaIn? ==> a.time >= time) && (a.NewCall? ==> a.time >= time);
    forall r, a | NoEarlier(s, r, time) && kind(a)
      ensures NoEarlier(s, Apply(cfg, r, a), time)
    {
      NoEarlierKept(cfg, s, r, a, time);
    }
    assert Since(s, s) == [];
    KeptByRun(cfg, r => NoEarlier(s, r, time), kind, s, ps);
  }

  // ---- the age of a call ----

  /** Until slot `i` expires, its call is the one of `s0`, created when that was. */
  ghost predicate SameBirth(s0: State, i: nat, s: State)
    requires i < |s0.table|
  {
    && Shaped(s) && s0.log <= s.log
    && (Expired(i) !in Since(s0, s) ==>
          i < |s.table| && s.table[i].isUsed && s.table[i].firstTime == s0.table[i].firstTime)
  }

  lemma BirthStays(cfg: Config, s: State, a: Action, i: nat)
    requires Shaped(s) && i < |s.table| && s.table[i].isUsed && Expired(i) !in EventsOf(cfg, s, a)
    ensures var r := Apply(cfg, s, a);
            i < |r.table| && r.table[i].isUsed && r.table[i].firstTime == s.table[i].firstTime
  {
    LiveSlotStays(cfg, s, a, i);
    if Touches(cfg, s, a, i) {
      MediaClocks(cfg, s, a, false);
    } else {
      UntouchedClocks(cfg, s, a, i);
    }
  }

  lemma BirthKept(cfg: Config, s0: State, i: nat, s: State, a: Action)
    requires i < |s0.table| && SameBirth(s0, i, s)
    ensures SameBirth(s0, i, Apply(cfg, s, a))
  {
    ShapeKept(cfg, s, a);
    LogIs(cfg, s, a);
    assert Since(s0, Apply(cfg, s, a)) == Since(s0, s) + EventsOf(cfg, s, a);
    if Expired(i) !in Since(s0, Apply(cfg, s, a)) {
      BirthStays(cfg, s, a, i);
    }
  }

  lemma RunKeepsBirth(cfg: Config, s0: State, i: nat, ps: seq<Packet>)
    requires Shaped(s0) && i < |s0.table| && s0.table[i].isUsed
    ensures SameBirth(s0, i, RunFrom(cfg, s0, ps))
  {
    forall s, a | SameBirth(s0, i, s)
      ensures SameBirth(s0, i, Apply(cfg, s, a))
    {
      BirthKept(cfg, s0, i, s, a);
    }
    AnythingIsCaused(ps);
    KeptByRun(cfg, s => SameBirth(s0, i, s), AnyAction, s0, ps);
  }

  // ---- the result ----

  predicate InOrder(ps: seq<Packet>) { forall m, n :: 0 <= m < n < |ps| ==> ps[m].time <= ps[n].time }

  /** The recorded media of the call in slot `i` leaves no gap of more than 300 s, up to
      the last packet, which comes within the limit of the call's creation. */
  ghost predicate Steady(cfg: Config, s0: State, i: nat, ps: seq<Packet>)
    requires i < |s0.table|
  {
    var log := RunFrom(cfg, s0, ps).log;
    && InOrder(ps) && NoLongGap(s0, log, i)
    && (ps != [] ==>
          var last := ps[|ps| - 1].time;
          last - ClockOf(log, i, true) <= 300 && last - s0.table[i].firstTime <= cfg.limit)
  }

  /** A history without long gaps after `from`, seen from a time before its next
      setting of the clock. */
  lemma GapsBound(log: seq<Event>, from: nat, i: nat, time: int, last: int)
    requires from <= |log| && time <= last && last - ClockOf(log, i, true) <= IDLE_LIMIT
    requires forall n :: from <= n < |log| && SetsClock(log[n], i, true) ==>
               log[n].time - ClockOf(log[..n], i, true) <= IDLE_LIMIT && log[n].time >= time
    ensures time - ClockOf(log[..from], i, true) <= IDLE_LIMIT
  {
    var n := NextSetting(log, from, i, true);
    if n == |log| {
      assert log[..n] == log;
    }
  }

  lemma LaterIsNoEarlier(cfg: Config, s0: State, ps: seq<Packet>, n: nat)
    requires InOrder(ps) && n < |ps|
    ensures NoEarlier(RunFrom(cfg, s0, ps[..n]), RunFrom(cfg, s0, ps), ps[n].time)
  {
    var rest := ps[n..];
    assert ps[..n] + rest == ps;
    RunsJoin(cfg, s0, ps[..n], rest);
    forall p | p in rest
      ensures p.time >= ps[n].time
    {
      var m :| 0 <= m < |rest| && rest[m] == p;
      assert ps[n + m] == p;
    }
    RunIsNoEarlier(cfg, RunFrom(cfg, s0, ps[..n]), rest, ps[n].time);
  }

  lemma SettingsAreLater(s: State, r: State, i: nat, time: int)
    requires NoEarlier(s, r, time)
    ensures forall n :: |s.log| <= n < |r.log| && SetsClock(r.log[n], i, true) ==> r.log[n].time >= time
    ensures r.log[..|s.log|] == s.log
  {
    assert forall n :: |s.log| <= n < |r.log| ==> r.log[n] in Since(s, r);
  }

  /** While the call lasts, its idle clock is at most 300 s behind the next packet. */
  lemma IdleClockIsClose(cfg: Config, s0: State, i: nat, ps: seq<Packet>, n: nat)
    requires i < |s0.table| && Steady(cfg, s0, i, ps) && n < |ps|
    requires s0.log <= RunFrom(cfg, s0, ps[..n]).log
    ensures ps[n].time - ClockOf(RunFrom(cfg, s0, ps[..n]).log, i, true) <= IDLE_LIMIT
  {
    var s, r := RunFrom(cfg, s0, ps[..n]), RunFrom(cfg, s0, ps);
    LaterIsNoEarlier(cfg, s0, ps, n);
    SettingsAreLater(s, r, i, ps[n].time);
    GapsBound(r.log, |s.log|, i, ps[n].time, ps[|ps| - 1].time);
  }

  /** The creation clock of a call that has not expired. */
  lemma BirthIsKnown(cfg: Config, s0: State, i: nat, ps: seq<Packet>)
    requires ClocksAreHistory(s0) && i < |s0.table| && s0.table[i].isUsed
    requires var r := RunFrom(cfg, s0, ps); s0.log <= r.log && Expired(i) !in Since(s0, r)
    ensures ClockOf(RunFrom(cfg, s0, ps).log, i, false) == s0.table[i].firstTime
  {
    RunKeepsBirth(cfg, s0, i, ps);
    RunClocks(cfg, s0, ps);
  }

  lemma AgeIsClose(cfg: Config, s0: State, i: nat, ps: seq<Packet>, n: nat)
    requires i < |s0.table| && Steady(cfg, s0, i, ps) && n < |ps|
    ensures ps[n].time - s0.table[i].firstTime <= cfg.limit
  {
  }

  lemma ActiveByClocks(cfg: Config, s0: State, i: nat, ps: seq<Packet>, p: Packet, idle: int, birth: int)
    requires ClockOf(RunFrom(cfg, s0, ps).log, i, true) == idle && p.time - idle <= IDLE_LIMIT
    requires ClockOf(RunFrom(cfg, s0, ps).log, i, false) == birth && p.time - birth <= cfg.limit
    ensures ActiveAt(cfg, s0, i, ps, p)
  {
  }

  lemma SteadyIsActive(cfg: Config, s0: State, i: nat, ps: seq<Packet>, n: nat)
    requires ClocksAreHistory(s0) && i < |s0.table| && s0.table[i].isUsed && n < |ps|
    requires Steady(cfg, s0, i, ps) && AlwaysActive(cfg, s0, i, ps[..n])
    ensures ActiveAt(cfg, s0, i, ps[..n], ps[n])
  {
    var few := ps[..n];
    ActiveCallSurvives(cfg, s0, i, few);
    IdleClockIsClose(cfg, s0, i, ps, n);
    AgeIsClose(cfg, s0, i, ps, n);
    BirthIsKnown(cfg, s0, i, few);
    ActiveByClocks(cfg, s0, i, few, ps[n], ClockOf(RunFrom(cfg, s0, few).log, i, true), s0.table[i].firstTime);
  }

  lemma {:induction false} SteadyUpTo(cfg: Config, s0: State, i: nat, ps: seq<Packet>, n: nat)
    requires ClocksAreHistory(s0) && i < |s0.table| && s0.table[i].isUsed && n <= |ps|
    requires Steady(cfg, s0, i, ps)
    ensures AlwaysActive(cfg, s0, i, ps[..n])
    decreases n
  {
    if n > 0 {
      SteadyUpTo(cfg, s0, i, ps, n - 1);
      SteadyIsActive(cfg, s0, i, ps, n - 1);
      assert ps[..n][..n - 1] == ps[..n - 1];
    }
  }

  /** At any point of any capture, a call whose recorded media is from then on never
      more than 300 s apart, and whose age stays within the limit, is expired by no
      sweep, as long as the capture's times do not decrease. */
  lemma SteadyCallSurvives(cfg: Config, before: seq<Packet>, i: nat, ps: seq<Packet>)
    requires i < |Run(cfg, before).table| && Run(cfg, before).table[i].isUsed
    requires Steady(cfg, Run(cfg, before), i, ps)
    ensures var s0 := Run(cfg, before);
            var r := RunFrom(cfg, s0, ps);
            && s0.log <= r.log && Expired(i) !in Since(s0, r)
            && i < |r.table| && r.table[i].isUsed
  {
    var s0 := Run(cfg, before);
    RunClocks(cfg, Init(), before);
    SteadyUpTo(cfg, s0, i, ps, |ps|);
    assert ps[..|ps|] == ps;
    ActiveCallSurvives(cfg, s0, i, ps);
  }
}
