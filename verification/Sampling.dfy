/** Recording every N-th call: the sampling counter is exact over any history. */
module Sampling {
  import opened Slots
  import opened Machine
  import opened Ownership
  import opened FileSplit

  /** N * q, by addition. */
  function Rounds(n: nat, q: nat): nat {
    if q == 0 then 0 else n + Rounds(n, q - 1)
  }

  lemma {:induction false} RoundsIsProduct(n: nat, q: nat)
    ensures Rounds(n, q) == n * q
  {
    if q > 0 {
      RoundsIsProduct(n, q - 1);
      assert n * q == n * (q - 1) + n;
    }
  }

  /** With k matching new calls and q open attempts so far: k == N * q - (skip - 1). */
  ghost predicate SampleCount(cfg: Config, s: State) {
    && 1 <= s.skip <= cfg.skipN
    && Times(s.log, Matched) == Rounds(cfg.skipN, Times(s.log, OpenAttempted)) - (s.skip - 1)
  }

  predicate IsSample(e: Event) { e.Matched? || e.OpenAttempted? }

  lemma SampleQuiet(log: seq<Event>, more: seq<Event>)
    requires forall e :: e in more ==> !IsSample(e)
    ensures Times(log + more, Matched) == Times(log, Matched)
    ensures Times(log + more, OpenAttempted) == Times(log, OpenAttempted)
  {
    TimesAbsent(more, Matched);
    TimesAbsent(more, OpenAttempted);
    TimesAppend(log, more, Matched);
    TimesAppend(log, more, OpenAttempted);
  }

  /** What a matching new call adds: one match, and an attempt when the counter is used up. */
  lemma SampleEvents(cfg: Config, s: State, a: Action)
    requires a.NewCall? && Enabled(s, a) && a.matched
    ensures Times(EventsOf(cfg, s, a), Matched) == 1
    ensures Times(EventsOf(cfg, s, a), OpenAttempted) == if s.skip > 1 then 0 else 1
    ensures Apply(cfg, s, a).skip == if s.skip > 1 then s.skip - 1 else cfg.skipN
  {
    var added := Added(FreeSlot(s.table, 0), a.time);
    var ev := EventsOf(cfg, s, a);
    var open := Opened(s.nextFile, a.name);
    var rest := if s.skip > 1 then [] else if a.openWorks then [OpenAttempted, open] else [OpenAttempted];
    assert ev == [added] + [Matched] + rest;
    TimesOfOne(added, Matched);
    TimesOfOne(added, OpenAttempted);
    TimesOfOne(Matched, Matched);
    TimesOfOne(Matched, OpenAttempted);
    TimesAppend([added], [Matched], Matched);
    TimesAppend([added], [Matched], OpenAttempted);
    TimesAppend([added] + [Matched], rest, Matched);
    TimesAppend([added] + [Matched], rest, OpenAttempted);
    AttemptTimes(s.nextFile, a.name, a.openWorks);
  }

  lemma AttemptTimes(file: Handle, name: string, openWorks: bool)
    ensures var rest := if openWorks then [OpenAttempted, Opened(file, name)] else [OpenAttempted];
            Times(rest, Matched) == 0 && Times(rest, OpenAttempted) == 1
  {
    TimesOfOne(OpenAttempted, Matched);
    TimesOfOne(OpenAttempted, OpenAttempted);
    TimesOfOne(Opened(file, name), Matched);
    TimesOfOne(Opened(file, name), OpenAttempted);
    assert [OpenAttempted, Opened(file, name)] == [OpenAttempted] + [Opened(file, name)];
    TimesAppend([OpenAttempted], [Opened(file, name)], Matched);
    TimesAppend([OpenAttempted], [Opened(file, name)], OpenAttempted);
  }

  lemma OthersSampleNothing(cfg: Config, s: State, a: Action)
    requires !(a.NewCall? && Enabled(s, a) && a.matched)
    ensures Apply(cfg, s, a).skip == s.skip
    ensures forall e :: e in EventsOf(cfg, s, a) ==> !IsSample(e)
  {
    if a.Sweep? {
      SweepWritesNothing(cfg, s.table, |s.table|, a.now);
    }
  }

  lemma SampleKept(cfg: Config, s: State, a: Action)
    requires SampleCount(cfg, s)
    ensures SampleCount(cfg, Apply(cfg, s, a))
  {
    LogIs(cfg, s, a);
    if a.NewCall? && Enabled(s, a) && a.matched {
      SampleEvents(cfg, s, a);
      TimesAppend(s.log, EventsOf(cfg, s, a), Matched);
      TimesAppend(s.log, EventsOf(cfg, s, a), OpenAttempted);
    } else {
      OthersSampleNothing(cfg, s, a);
      SampleQuiet(s.log, EventsOf(cfg, s, a));
    }
  }

  /** The quotient and remainder that the counter encodes. */
  lemma Multiple(k: int, n: Positive, q: int, r: nat)
    requires k == n * q - r && r < n
    ensures (k + n - 1) / n == q
    ensures k % n == 0 <==> r == 0
  {
    DivUnique(k + n - 1, n, q, n - 1 - r);
    if r == 0 {
      DivUnique(k, n, q, 0);
    } else {
      assert n * (q - 1) == n * q - n;
      DivUnique(k, n, q - 1, n - r);
    }
  }

  lemma DivUnique(k: int, n: Positive, q: int, r: nat)
    requires k == n * q + r && r < n
    ensures k / n == q && k % n == r
  {
    var d := k / n - q;
    assert n * d == r - k % n;
    MultipleGrows(n, d);
  }

  lemma MultipleGrows(n: Positive, d: int)
    ensures d >= 1 ==> n * d >= n
    ensures d <= -1 ==> n * d + n <= 0
  {
    if d >= 1 {
      assert n * d == n * (d - 1) + n;
    } else if d <= -1 {
      assert n * d == n * (d + 1) - n;
    }
  }

  /** k matching new calls cause ceil(k / N) open attempts. */
  lemma AttemptsAreCeiling(cfg: Config, s: State)
    requires SampleCount(cfg, s)
    ensures Times(s.log, OpenAttempted) == (Times(s.log, Matched) + cfg.skipN - 1) / cfg.skipN
  {
    RoundsIsProduct(cfg.skipN, Times(s.log, OpenAttempted));
    Multiple(Times(s.log, Matched), cfg.skipN, Times(s.log, OpenAttempted), s.skip - 1);
  }

  /** The counter is used up exactly when N divides k. */
  lemma CounterUsedUpIff(cfg: Config, s: State)
    requires SampleCount(cfg, s)
    ensures s.skip <= 1 <==> Times(s.log, Matched) % cfg.skipN == 0
  {
    RoundsIsProduct(cfg.skipN, Times(s.log, OpenAttempted));
    Multiple(Times(s.log, Matched), cfg.skipN, Times(s.log, OpenAttempted), s.skip - 1);
  }

  /** An open is attempted exactly for a matching new call that uses up the counter. */
  lemma AttemptIff(cfg: Config, s: State, a: Action)
    ensures OpenAttempted in EventsOf(cfg, s, a) <==>
            a.NewCall? && Enabled(s, a) && a.matched && s.skip <= 1
  {
    if !(a.NewCall? && Enabled(s, a) && a.matched) {
      OthersSampleNothing(cfg, s, a);
    }
  }
}
