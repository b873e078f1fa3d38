/** The flows a call tracks: the first four distinct pairs offered to it since it
    was added, in order. */
module FlowTracking {
  import opened Slots
  import opened Machine
  import opened TableShape
  import opened FileSplit

  type Pair = (Addr, Port)

  /** Taking a further pair: only if it is new and fewer than four are taken. */
  function Take(r: seq<Pair>, x: Pair): seq<Pair> {
    if |r| < MAX_FLOWS && x !in r then r + [x] else r
  }

  function FirstDistinct(offers: seq<Pair>): seq<Pair> {
    if offers == [] then [] else Take(FirstDistinct(offers[..|offers| - 1]), offers[|offers| - 1])
  }

  lemma FirstDistinctOne(offers: seq<Pair>, x: Pair)
    ensures FirstDistinct(offers + [x]) == Take(FirstDistinct(offers), x)
  {
    assert (offers + [x])[..|offers + [x]| - 1] == offers;
  }

  /** No duplicates, at most four, all of them offered; below four nothing is missing. */
  lemma {:induction false} FirstDistinctMeaning(offers: seq<Pair>)
    ensures var r := FirstDistinct(offers);
            && |r| <= 4
            && (forall j, k :: 0 <= j < k < |r| ==> r[j] != r[k])
            && (forall x :: x in r ==> x in offers)
            && (|r| < 4 ==> forall x :: x in offers ==> x in r)
    decreases |offers|
  {
    if offers != [] {
      FirstDistinctMeaning(offers[..|offers| - 1]);
    }
  }

  /** What was taken from a prefix of the offers stays, in its place. */
  lemma {:induction false} FirstDistinctGrows(offers: seq<Pair>, n: nat)
    requires n <= |offers|
    ensures FirstDistinct(offers[..n]) <= FirstDistinct(offers)
    decreases |offers| - n
  {
    if n < |offers| {
      FirstDistinctGrows(offers, n + 1);
      assert offers[..n + 1] == offers[..n] + [offers[n]];
      FirstDistinctOne(offers[..n], offers[n]);
    } else {
      assert offers[..n] == offers;
    }
  }

  /** The pairs offered to the call in slot `i` since it was added. */
  function Offers(log: seq<Event>, i: nat): seq<Pair> {
    if log == [] then []
    else
      var e := log[|log| - 1];
      if e.Added? && e.slot == i then []
      else if e.Offered? && e.slot == i then Offers(log[..|log| - 1], i) + [(e.addr, e.port)]
      else Offers(log[..|log| - 1], i)
  }

  predicate Concerns(e: Event, i: nat) { (e.Added? || e.Offered?) && e.slot == i }

  lemma OffersOne(log: seq<Event>, e: Event, i: nat)
    ensures Offers(log + [e], i) ==
            if !Concerns(e, i) then Offers(log, i)
            else if e.Added? then [] else Offers(log, i) + [(e.addr, e.port)]
  {
    assert (log + [e])[..|log + [e]| - 1] == log;
  }

  lemma {:induction false} OffersQuiet(log: seq<Event>, more: seq<Event>, i: nat)
    requires forall e :: e in more ==> !Concerns(e, i)
    ensures Offers(log + more, i) == Offers(log, i)
    decreases |more|
  {
    if more == [] {
      assert log + more == log;
    } else {
      var n := |more| - 1;
      assert log + more == log + more[..n] + [more[n]];
      OffersOne(log + more[..n], more[n], i);
      OffersQuiet(log, more[..n], i);
    }
  }

  function Pairs(s: Slot): (r: seq<Pair>)
    requires s.ipN <= MAX_FLOWS
    ensures |r| == s.ipN
    ensures forall k :: 0 <= k < s.ipN ==> r[k] == (s.ip[k], s.port[k])
  {
    seq(s.ipN, k requires 0 <= k < s.ipN => (s.ip[k], s.port[k]))
  }

  lemma AddFlowTakes(s: Slot, addr: Addr, port: Port)
    requires s.ipN <= MAX_FLOWS
    ensures AddFlow(s, addr, port).ipN <= MAX_FLOWS
    ensures Pairs(AddFlow(s, addr, port)) == Take(Pairs(s), (addr, port))
  {
    var k := FindPair(s, addr, port, 0);
    if k >= 0 {
      assert Pairs(s)[k] == (addr, port);
    } else if (addr, port) in Pairs(s) {
      var j :| 0 <= j < s.ipN && Pairs(s)[j] == (addr, port);
      assert Tracks(s, j, addr, port);
    }
  }

  ghost predicate FlowsAreOffers(s: State) {
    && Shaped(s)
    && forall i :: 0 <= i < |s.table| && s.table[i].isUsed ==> Pairs(s.table[i]) == FirstDistinct(Offers(s.log, i))
  }

  ghost predicate SameFlows(a: Slot, b: Slot) { a.ipN == b.ipN && a.ip == b.ip && a.port == b.port }

  lemma NewCallLeavesOthers(cfg: Config, s: State, a: Action, i: nat)
    requires a.NewCall? && Enabled(s, a) && i != FreeSlot(s.table, 0) && i < |Apply(cfg, s, a).table|
    ensures i < |s.table| && Apply(cfg, s, a).table[i] == s.table[i]
  {
  }

  /** Other actions leave a call's flows alone. */
  lemma OtherFlowsStay(cfg: Config, s: State, a: Action, i: nat)
    requires Shaped(s) && i < |Apply(cfg, s, a).table| && Apply(cfg, s, a).table[i].isUsed
    requires !(a.Offer? && a.slot == i)
    requires !(a.NewCall? && i == FreeSlot(s.table, 0))
    ensures i < |s.table| && s.table[i].isUsed
    ensures SameFlows(Apply(cfg, s, a).table[i], s.table[i])
  {
    if a.NewCall? && Enabled(s, a) {
      NewCallLeavesOthers(cfg, s, a, i);
    }
  }

  lemma OtherEventsQuiet(cfg: Config, s: State, a: Action, i: nat)
    requires !(a.Offer? && a.slot == i)
    requires !(a.NewCall? && i == FreeSlot(s.table, 0))
    ensures forall e :: e in EventsOf(cfg, s, a) ==> !Concerns(e, i)
  {
    if a.Sweep? {
      SweepWritesNothing(cfg, s.table, |s.table|, a.now);
    }
  }

  lemma NewCallFlows(cfg: Config, s: State, a: Action)
    requires Shaped(s) && a.NewCall? && Enabled(s, a)
    ensures var r := Apply(cfg, s, a);
            var i := FreeSlot(s.table, 0);
            i < |r.table| && r.table[i].ipN == 0 && Offers(r.log, i) == []
  {
    var i := FreeSlot(s.table, 0);
    var ev := EventsOf(cfg, s, a);
    LogIs(cfg, s, a);
    var added := Added(i, a.time);
    assert ev[0] == added;
    assert s.log + ev == s.log + [added] + ev[1..];
    OffersOne(s.log, added, i);
    assert forall e :: e in ev[1..] ==> e.Matched? || e.OpenAttempted? || e.Opened?;
    OffersQuiet(s.log + [added], ev[1..], i);
  }

  lemma FlowsKept(cfg: Config, s: State, a: Action)
    requires FlowsAreOffers(s)
    ensures FlowsAreOffers(Apply(cfg, s, a))
  {
    var r := Apply(cfg, s, a);
    ShapeKept(cfg, s, a);
    LogIs(cfg, s, a);
    forall i | 0 <= i < |r.table| && r.table[i].isUsed
      ensures Pairs(r.table[i]) == FirstDistinct(Offers(r.log, i))
    {
      if a.Offer? && a.slot == i && Enabled(s, a) {
        AddFlowTakes(s.table[i], a.addr, a.port);
        OffersOne(s.log, Offered(i, a.addr, a.port, Registers(s.table[i], a.addr, a.port)), i);
        FirstDistinctOne(Offers(s.log, i), (a.addr, a.port));
      } else if a.NewCall? && i == FreeSlot(s.table, 0) && Enabled(s, a) {
        NewCallFlows(cfg, s, a);
      } else if Enabled(s, a) {
        OtherFlowsStay(cfg, s, a, i);
        OtherEventsQuiet(cfg, s, a, i);
        OffersQuiet(s.log, EventsOf(cfg, s, a), i);
      }
    }
  }
}
