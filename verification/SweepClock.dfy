/** How often the sweep comes: the difference of times is unsigned, so that it comes
    after more than 15 seconds, or as soon as the capture's clock stands before the
    last sweep. */
module SweepClock {
  import opened Machine
  import opened Captures
  import opened WholeRuns

  const SIGNED := 0x8000_0000_0000_0000
  const SWEEP_GAP := 15

  lemma SweepDueIff(s: State, time: int)
    requires 0 <= s.lastCleanup < SIGNED && 0 <= time < SIGNED
    ensures SweepDue(s, time) <==> time < s.lastCleanup || time - s.lastCleanup > SWEEP_GAP
  {
    var d := time - s.lastCleanup;
    assert d < 0 ==> d % WORD == d + WORD;
  }

  /** All times of the capture are ordinary ones. */
  predicate Clocked(ps: seq<Packet>) { forall n :: 0 <= n < |ps| ==> 0 <= ps[n].time < SIGNED }

  /** Packet `n` of the capture makes the sweep run. */
  predicate SweepsAt(cfg: Config, ps: seq<Packet>, n: nat)
    requires n < |ps|
  {
    SweepDue(Run(cfg, ps[..n]), ps[n].time)
  }

  /** The last sweep before packet `n` came with packet `m`. */
  ghost predicate LastSweepAt(cfg: Config, ps: seq<Packet>, m: nat, n: nat) {
    m < n < |ps| && SweepsAt(cfg, ps, m) && forall k :: m < k < n ==> !SweepsAt(cfg, ps, k)
  }

  /** Only a sweep sets its clock. */
  lemma StepClock(cfg: Config, s: State, p: Packet)
    ensures Step(cfg, s, p).lastCleanup == if SweepDue(s, p.time) then p.time % WORD else s.lastCleanup
  {
    var s1 := SweepFirst(cfg, s, p.time);
    var inv := (r: State) => r.lastCleanup == s1.lastCleanup;
    var kind := (a: Action) => !a.Sweep?;
    DispatchFromPacket(cfg, s1.table, p);
    KeptByActions(cfg, inv, kind, s1, Dispatch(cfg, s1.table, p));
  }

  lemma OrdinaryStepClock(cfg: Config, s: State, p: Packet)
    requires 0 <= p.time < SIGNED
    ensures Step(cfg, s, p).lastCleanup == if SweepDue(s, p.time) then p.time else s.lastCleanup
  {
    StepClock(cfg, s, p);
  }

  lemma RunOneMore(cfg: Config, ps: seq<Packet>, n: nat)
    requires n < |ps|
    ensures Run(cfg, ps[..n + 1]).lastCleanup == Step(cfg, Run(cfg, ps[..n]), ps[n]).lastCleanup
  {
    assert ps[..n + 1][..n] == ps[..n];
  }

  lemma ClockAfter(cfg: Config, ps: seq<Packet>, n: nat)
    requires n < |ps| && 0 <= ps[n].time < SIGNED
    ensures Run(cfg, ps[..n + 1]).lastCleanup ==
            if SweepsAt(cfg, ps, n) then ps[n].time else Run(cfg, ps[..n]).lastCleanup
  {
    var s := Run(cfg, ps[..n]);
    RunOneMore(cfg, ps, n);
    OrdinaryStepClock(cfg, s, ps[n]);
    assert SweepsAt(cfg, ps, n) == SweepDue(s, ps[n].time);
  }

  /** A clock shows the time of its last setting. */
  lemma {:induction false} LastSetting(sets: nat -> bool, times: nat -> int, clock: nat -> int, m: nat, n: nat)
    requires m < n && sets(m) && forall j :: m < j < n ==> !sets(j)
    requires forall j :: m <= j < n ==> clock(j + 1) == if sets(j) then times(j) else clock(j)
    ensures clock(n) == times(m)
    decreases n
  {
    assert clock(n - 1 + 1) == if sets(n - 1) then times(n - 1) else clock(n - 1);
    if n - 1 > m {
      LastSetting(sets, times, clock, m, n - 1);
    }
  }

  function Sweeps(cfg: Config, ps: seq<Packet>): nat -> bool { (n: nat) => n < |ps| && SweepsAt(cfg, ps, n) }

  function TimesOf(ps: seq<Packet>): nat -> int { (n: nat) => if n < |ps| then ps[n].time else 0 }

  function ClockOf(cfg: Config, ps: seq<Packet>): nat -> int {
    (n: nat) => if n <= |ps| then Run(cfg, ps[..n]).lastCleanup else 0
  }

  lemma ClockFollows(cfg: Config, ps: seq<Packet>, n: nat)
    requires Clocked(ps) && n < |ps|
    ensures ClockOf(cfg, ps)(n + 1) == if Sweeps(cfg, ps)(n) then TimesOf(ps)(n) else ClockOf(cfg, ps)(n)
  {
    ClockAfter(cfg, ps, n);
  }

  lemma ClockIsLastSweep(cfg: Config, ps: seq<Packet>, m: nat, n: nat)
    requires Clocked(ps) && LastSweepAt(cfg, ps, m, n)
    ensures Run(cfg, ps[..n]).lastCleanup == ps[m].time
  {
    forall j | m <= j < n
      ensures ClockOf(cfg, ps)(j + 1) == if Sweeps(cfg, ps)(j) then TimesOf(ps)(j) else ClockOf(cfg, ps)(j)
    {
      ClockFollows(cfg, ps, j);
    }
    forall j | m < j < n
      ensures !Sweeps(cfg, ps)(j)
    {
      assert !SweepsAt(cfg, ps, j);
    }
    LastSetting(Sweeps(cfg, ps), TimesOf(ps), ClockOf(cfg, ps), m, n);
  }

  /** The next sweep comes exactly when more than 15 seconds have passed or the clock
      stands before the last one. */
  lemma SweepsAfterIff(cfg: Config, ps: seq<Packet>, m: nat, n: nat)
    requires Clocked(ps) && LastSweepAt(cfg, ps, m, n)
    ensures SweepsAt(cfg, ps, n) <==> ps[n].time < ps[m].time || ps[n].time - ps[m].time > SWEEP_GAP
  {
    ClockIsLastSweep(cfg, ps, m, n);
    SweepDueIff(Run(cfg, ps[..n]), ps[n].time);
  }

  /** Successive sweeps are more than 15 seconds apart. */
  ghost predicate SweepsAreApart(cfg: Config, ps: seq<Packet>) {
    forall m: nat, n: nat :: LastSweepAt(cfg, ps, m, n) && SweepsAt(cfg, ps, n) ==> ps[n].time - ps[m].time > SWEEP_GAP
  }

  /** No packet stands before the last sweep. */
  ghost predicate NeverBeforeSweep(cfg: Config, ps: seq<Packet>) {
    forall m: nat, n: nat :: LastSweepAt(cfg, ps, m, n) ==> ps[m].time <= ps[n].time
  }

  /** The sweep runs at most once per 15 seconds of capture time if and only if the
      capture's clock never stands before the last sweep. */
  lemma SweepsAreApartIff(cfg: Config, ps: seq<Packet>)
    requires Clocked(ps)
    ensures SweepsAreApart(cfg, ps) <==> NeverBeforeSweep(cfg, ps)
  {
    forall m: nat, n: nat | LastSweepAt(cfg, ps, m, n)
      ensures SweepsAt(cfg, ps, n) <==> ps[n].time < ps[m].time || ps[n].time - ps[m].time > SWEEP_GAP
    {
      SweepsAfterIff(cfg, ps, m, n);
    }
  }

  lemma {:induction false} LastTrue(f: nat -> bool, m: nat, n: nat) returns (k: nat)
    requires m < n && f(m)
    ensures m <= k < n && f(k) && forall j :: k < j < n ==> !f(j)
    decreases n
  {
    if f(n - 1) {
      k := n - 1;
    } else {
      k := LastTrue(f, m, n - 1);
    }
  }

  lemma LastSweepExists(cfg: Config, ps: seq<Packet>, m: nat, n: nat) returns (k: nat)
    requires m < n < |ps| && SweepsAt(cfg, ps, m)
    ensures m <= k && LastSweepAt(cfg, ps, k, n)
  {
    var sweeps := (i: nat) => i < |ps| && SweepsAt(cfg, ps, i);
    k := LastTrue(sweeps, m, n);
    forall j | k < j < n
      ensures !SweepsAt(cfg, ps, j)
    {
      assert !sweeps(j);
    }
  }

  /** With a non-decreasing clock any two sweeps are more than 15 seconds apart. */
  lemma SteadyClockSweepsApart(cfg: Config, ps: seq<Packet>, m: nat, n: nat)
    requires Clocked(ps) && NonDecreasing(ps) && m < n < |ps|
    requires SweepsAt(cfg, ps, m) && SweepsAt(cfg, ps, n)
    ensures ps[n].time - ps[m].time > SWEEP_GAP
  {
    var k := LastSweepExists(cfg, ps, m, n);
    SweepsAfterIff(cfg, ps, k, n);
  }

  /** When the clock steps back by a second or more behind a sweep, the next sweep
      follows at once. */
  lemma StepBackSweepsAgain(cfg: Config)
    ensures var ps := [Packet(100, true, Other), Packet(99, true, Other)];
            SweepsAt(cfg, ps, 0) && SweepsAt(cfg, ps, 1) && !SweepsAreApart(cfg, ps)
  {
    var ps := [Packet(100, true, Other), Packet(99, true, Other)];
    assert ps[..0] == [];
    assert SweepsAt(cfg, ps, 0);
    assert LastSweepAt(cfg, ps, 0, 1);
    SweepsAfterIff(cfg, ps, 0, 1);
  }
}
