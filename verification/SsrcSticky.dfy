/** SSRC stickiness: after a BYE a call's SSRCs are frozen, and the last SSRC
    attributed to a flow keeps resolving to that flow until the call expires or a
    lower slot registers the same address and port. */
module SsrcSticky {
  import opened Slots
  import opened Machine
  import opened TableShape

  /** The flow is found by its own address, port and current SSRC. */
  ghost predicate Resolves(t: Table, i: nat, k: nat) {
    && i < |t| && k < MAX_FLOWS && k < t[i].ipN
    && FindMedia(t, t[i].ip[k], t[i].port[k], t[i].ssrc[k], 0) == Hit(i, k)
  }

  /** No lower slot would take the packet. */
  ghost predicate NoneBelow(t: Table, i: nat, addr: Addr, port: Port, ssrc: Ssrc) {
    forall j: nat, m: nat :: j < i ==> !EligibleAt(t, j, m, addr, port, ssrc)
  }

  lemma ResolvesIff(t: Table, i: nat, k: nat)
    requires TableOk(t) && i < |t| && k < MAX_FLOWS && k < t[i].ipN
    ensures Resolves(t, i, k) <==> NoneBelow(t, i, t[i].ip[k], t[i].port[k], t[i].ssrc[k])
  {
    var s := t[i];
    assert EligibleAt(t, i, k, s.ip[k], s.port[k], s.ssrc[k]);
    assert forall m: nat :: m < k ==> !Tracks(s, m, s.ip[k], s.port[k]);
    assert forall m: nat :: k < m ==> !Tracks(s, m, s.ip[k], s.port[k]);
  }

  /** A tracked flow takes every SSRC if and only if its call has not ended. */
  lemma SsrcMattersIff(s: Slot, k: nat, addr: Addr, port: Port)
    requires Tracks(s, k, addr, port)
    ensures (forall ssrc: Ssrc :: Eligible(s, k, addr, port, ssrc)) <==> !s.hadBye
  {
    if s.hadBye {
      var other: Ssrc := if s.ssrc[k] == 0 then 1 else 0;
      assert !Eligible(s, k, addr, port, other);
    }
  }

  /** A successful lookup makes its flow resolve. */
  lemma LookupResolves(t: Table, addr: Addr, port: Port, ssrc: Ssrc)
    requires TableOk(t) && FindMedia(t, addr, port, ssrc, 0).Hit?
    ensures var h := FindMedia(t, addr, port, ssrc, 0);
            Resolves(Attribute(t, h, ssrc), h.slot, h.flow)
    ensures var h := FindMedia(t, addr, port, ssrc, 0);
            t[h.slot].hadBye ==> Attribute(t, h, ssrc) == t
  {
    var h := FindMedia(t, addr, port, ssrc, 0);
    var r := Attribute(t, h, ssrc);
    assert SlotOk(r[h.slot]) by {
      assert SlotOk(t[h.slot]);
    }
    assert TableOk(r);
    assert forall j: nat, m: nat :: EligibleAt(r, j, m, addr, port, ssrc) && j < h.slot ==>
             EligibleAt(t, j, m, addr, port, ssrc);
    ResolvesIff(r, h.slot, h.flow);
    if t[h.slot].hadBye {
      assert t[h.slot].ssrc[h.flow := ssrc] == t[h.slot].ssrc;
    }
  }

  // ---- what an action may do to lower slots ----

  /** Slot `a` may replace slot `b` without taking new packets of the pair. */
  ghost predicate TakesNoMore(a: Slot, b: Slot, addr: Addr, port: Port, ssrc: Ssrc) {
    forall m: nat :: Eligible(a, m, addr, port, ssrc) ==> exists n: nat :: Eligible(b, n, addr, port, ssrc)
  }

  lemma NoneBelowKept(t: Table, r: Table, i: nat, addr: Addr, port: Port, ssrc: Ssrc)
    requires i <= |t| <= |r| && NoneBelow(t, i, addr, port, ssrc)
    requires forall j :: 0 <= j < i ==> TakesNoMore(r[j], t[j], addr, port, ssrc)
    ensures NoneBelow(r, i, addr, port, ssrc)
  {
    forall j: nat, m: nat | j < i
      ensures !EligibleAt(r, j, m, addr, port, ssrc)
    {
      if Eligible(r[j], m, addr, port, ssrc) {
        var n: nat :| Eligible(t[j], n, addr, port, ssrc);
        assert EligibleAt(t, j, n, addr, port, ssrc);
      }
    }
  }

  lemma SameSlotTakesNoMore(s: Slot, addr: Addr, port: Port, ssrc: Ssrc)
    ensures TakesNoMore(s, s, addr, port, ssrc) && TakesNoMore(ZERO, s, addr, port, ssrc)
  {
  }

  /** Only registering this very pair takes packets of it. */
  lemma OfferTakesNoMore(s: Slot, a: Addr, p: Port, addr: Addr, port: Port, ssrc: Ssrc)
    requires s.ipN <= MAX_FLOWS && !(Registers(s, a, p) && a == addr && p == port)
    ensures TakesNoMore(AddFlow(s, a, p), s, addr, port, ssrc)
  {
    forall m: nat | Eligible(AddFlow(s, a, p), m, addr, port, ssrc)
      ensures exists n: nat :: Eligible(s, n, addr, port, ssrc)
    {
      assert Eligible(s, m, addr, port, ssrc);
    }
  }

  /** An attribution changes the SSRC of live calls only, and those take any SSRC. */
  lemma AttributionTakesNoMore(s: Slot, a: Addr, p: Port, x: Ssrc, k: nat, addr: Addr, port: Port, ssrc: Ssrc)
    requires Eligible(s, k, a, p, x)
    ensures TakesNoMore(s.(ssrc := s.ssrc[k := x]), s, addr, port, ssrc)
  {
    var r := s.(ssrc := s.ssrc[k := x]);
    forall m: nat | Eligible(r, m, addr, port, ssrc)
      ensures exists n: nat :: Eligible(s, n, addr, port, ssrc)
    {
      assert Eligible(s, m, addr, port, ssrc);
    }
  }

  // ---- one action ----

  /** The events leave slot `i` alone and register the pair with no lower slot. */
  ghost predicate Undisturbed(more: seq<Event>, i: nat, addr: Addr, port: Port) {
    && Expired(i) !in more
    && forall j: nat :: j < i ==> Offered(j, addr, port, true) !in more
  }

  lemma {:induction false} SweepExpires(cfg: Config, t: Table, n: nat, now: int, i: nat)
    requires n <= |t|
    ensures Expired(i) in SweepEvents(t, n, now, cfg) <==> i < n && Expires(t[i], now, cfg.limit)
  {
    if n > 0 {
      SweepExpires(cfg, t, n - 1, now, i);
    }
  }

  /** The SSRC last attributed to a flow, starting from `x`. */
  function LastSsrc(log: seq<Event>, i: nat, k: nat, x: Ssrc): Ssrc {
    if log == [] then x
    else
      var e := log[|log| - 1];
      if e.Attributed? && e.slot == i && e.flow == k then e.ssrc else LastSsrc(log[..|log| - 1], i, k, x)
  }

  lemma LastSsrcOne(log: seq<Event>, e: Event, i: nat, k: nat, x: Ssrc)
    ensures LastSsrc(log + [e], i, k, x) ==
            if e.Attributed? && e.slot == i && e.flow == k then e.ssrc else LastSsrc(log, i, k, x)
  {
    assert (log + [e])[..|log + [e]| - 1] == log;
  }

  lemma {:induction false} LastSsrcQuiet(log: seq<Event>, more: seq<Event>, i: nat, k: nat, x: Ssrc)
    requires forall e :: e in more ==> !e.Attributed?
    ensures LastSsrc(log + more, i, k, x) == LastSsrc(log, i, k, x)
    decreases |more|
  {
    if more == [] {
      assert log + more == log;
    } else {
      var n := |more| - 1;
      assert log + more == log + more[..n] + [more[n]];
      LastSsrcOne(log + more[..n], more[n], i, k, x);
      LastSsrcQuiet(log, more[..n], i, k, x);
    }
  }

  lemma {:induction false} LastSsrcAppend(log: seq<Event>, more: seq<Event>, i: nat, k: nat, x: Ssrc)
    ensures LastSsrc(log + more, i, k, x) == LastSsrc(more, i, k, LastSsrc(log, i, k, x))
    decreases |more|
  {
    if more == [] {
      assert log + more == log;
    } else {
      var n := |more| - 1;
      assert log + more == log + more[..n] + [more[n]];
      LastSsrcOne(log + more[..n], more[n], i, k, x);
      LastSsrcAppend(log, more[..n], i, k, x);
    }
  }

  lemma {:induction false} SweepAttributesNothing(cfg: Config, t: Table, n: nat, now: int, e: Event)
    requires n <= |t| && e in SweepEvents(t, n, now, cfg)
    ensures !e.Attributed?
  {
    if e !in SlotSweepEvents(t[n - 1], n - 1, now, cfg) {
      SweepAttributesNothing(cfg, t, n - 1, now, e);
    }
  }

  lemma MediaLastSsrc(cfg: Config, s: State, a: Action, i: nat, k: nat)
    requires a.MediaIn? && Enabled(s, a) && i < |s.table| && k < MAX_FLOWS
    ensures Apply(cfg, s, a).table[i].ssrc[k] == LastSsrc(EventsOf(cfg, s, a), i, k, s.table[i].ssrc[k])
  {
    var h := FindMedia(s.table, a.addr, a.port, a.ssrc, 0);
    var x := s.table[i].ssrc[k];
    var ev := EventsOf(cfg, s, a);
    var first := Attributed(h.slot, h.flow, a.ssrc);
    assert ev == [] + [first] + ev[1..];
    LastSsrcOne([], first, i, k, x);
    assert forall e :: e in ev[1..] ==> !e.Attributed?;
    LastSsrcQuiet([] + [first], ev[1..], i, k, x);
  }

  lemma OthersAttributeNothing(cfg: Config, s: State, a: Action)
    requires !a.MediaIn?
    ensures forall e :: e in EventsOf(cfg, s, a) ==> !e.Attributed?
  {
    if a.Sweep? {
      forall e | e in SweepEvents(s.table, |s.table|, a.now, cfg) ensures !e.Attributed? {
        SweepAttributesNothing(cfg, s.table, |s.table|, a.now, e);
      }
    }
  }

  /** A used slot that does not expire stays used and ended; only a media packet can
      change its SSRCs. */
  lemma SlotStays(cfg: Config, s: State, a: Action, i: nat)
    requires i < |s.table| && s.table[i].isUsed
    requires a.Sweep? ==> !Expires(s.table[i], a.now, cfg.limit)
    ensures var r := Apply(cfg, s, a);
            && i < |r.table| && r.table[i].isUsed
            && (s.table[i].hadBye ==> r.table[i].hadBye)
            && (!a.MediaIn? ==> r.table[i].ssrc == s.table[i].ssrc)
  {
  }

  /** It keeps the pairs it tracks. */
  lemma PairStays(cfg: Config, s: State, a: Action, i: nat, k: nat)
    requires i < |s.table| && s.table[i].isUsed && k < s.table[i].ipN <= MAX_FLOWS
    requires a.Sweep? ==> !Expires(s.table[i], a.now, cfg.limit)
    ensures var r := Apply(cfg, s, a);
            && i < |r.table| && k < r.table[i].ipN
            && r.table[i].ip[k] == s.table[i].ip[k] && r.table[i].port[k] == s.table[i].port[k]
  {
  }

  /** The flow's slot keeps its pair, and its SSRC is the old one or the one attributed. */
  lemma FlowStays(cfg: Config, s: State, a: Action, i: nat, k: nat)
    requires Shaped(s) && i < |s.table| && s.table[i].isUsed && k < s.table[i].ipN
    requires Expired(i) !in EventsOf(cfg, s, a)
    ensures var r := Apply(cfg, s, a);
            && i < |r.table| && r.table[i].isUsed && k < r.table[i].ipN
            && r.table[i].ip[k] == s.table[i].ip[k] && r.table[i].port[k] == s.table[i].port[k]
            && r.table[i].ssrc[k] == LastSsrc(EventsOf(cfg, s, a), i, k, s.table[i].ssrc[k])
            && (s.table[i].hadBye ==> r.table[i].hadBye)
  {
    if a.Sweep? {
      SweepExpires(cfg, s.table, |s.table|, a.now, i);
    }
    SlotStays(cfg, s, a, i);
    PairStays(cfg, s, a, i, k);
    if a.MediaIn? && Enabled(s, a) {
      MediaLastSsrc(cfg, s, a, i, k);
    } else if !a.MediaIn? {
      OthersAttributeNothing(cfg, s, a);
      LastSsrcQuiet([], EventsOf(cfg, s, a), i, k, s.table[i].ssrc[k]);
      assert [] + EventsOf(cfg, s, a) == EventsOf(cfg, s, a);
    }
  }

  /** After a BYE the SSRC is frozen. */
  lemma EndedSsrcStays(cfg: Config, s: State, a: Action, i: nat, k: nat)
    requires Shaped(s) && i < |s.table| && s.table[i].isUsed && s.table[i].hadBye && k < s.table[i].ipN
    requires Expired(i) !in EventsOf(cfg, s, a)
    ensures var r := Apply(cfg, s, a); i < |r.table| && r.table[i].ssrc[k] == s.table[i].ssrc[k]
  {
    FlowStays(cfg, s, a, i, k);
    if a.MediaIn? && Enabled(s, a) {
      var h := FindMedia(s.table, a.addr, a.port, a.ssrc, 0);
      LookupResolves(s.table, a.addr, a.port, a.ssrc);
      assert h.slot == i ==> Attribute(s.table, h, a.ssrc) == s.table;
    }
  }

  /** Lower slots take no more packets of the pair than before. */
  lemma LowerSlotsTakeNoMore(cfg: Config, s: State, a: Action, i: nat, j: nat, addr: Addr, port: Port, ssrc: Ssrc)
    requires Shaped(s) && j < i < |s.table| && s.table[i].isUsed
    requires Undisturbed(EventsOf(cfg, s, a), i, addr, port)
    ensures j < |Apply(cfg, s, a).table| && TakesNoMore(Apply(cfg, s, a).table[j], s.table[j], addr, port, ssrc)
  {
    var r := Apply(cfg, s, a);
    SameSlotTakesNoMore(s.table[j], addr, port, ssrc);
    if Enabled(s, a) {
      if a.MediaIn? {
        var h := FindMedia(s.table, a.addr, a.port, a.ssrc, 0);
        if h.slot == j {
          AttributionTakesNoMore(s.table[j], a.addr, a.port, a.ssrc, h.flow, addr, port, ssrc);
          var attributed := s.table[j].(ssrc := s.table[j].ssrc[h.flow := a.ssrc]);
          assert forall m: nat :: Eligible(r.table[j], m, addr, port, ssrc) ==>
                   Eligible(attributed, m, addr, port, ssrc);
        }
      } else if a.Offer? && a.slot == j {
        assert Offered(j, a.addr, a.port, Registers(s.table[j], a.addr, a.port)) in EventsOf(cfg, s, a);
        OfferTakesNoMore(s.table[j], a.addr, a.port, addr, port, ssrc);
      } else {
        OtherSlotsTakeNoMore(cfg, s, a, j, addr, port, ssrc);
      }
    }
  }

  lemma OtherSlotsTakeNoMore(cfg: Config, s: State, a: Action, j: nat, addr: Addr, port: Port, ssrc: Ssrc)
    requires j < |s.table| && !a.MediaIn? && !(a.Offer? && a.slot == j)
    ensures j < |Apply(cfg, s, a).table| && TakesNoMore(Apply(cfg, s, a).table[j], s.table[j], addr, port, ssrc)
  {
    var r := Apply(cfg, s, a);
    assert forall m: nat :: Eligible(r.table[j], m, addr, port, ssrc) ==> Eligible(s.table[j], m, addr, port, ssrc);
  }

  /** One action keeps a resolving flow resolving, with the SSRC it then has. */
  lemma ResolvesKept(cfg: Config, s: State, a: Action, i: nat, k: nat)
    requires Shaped(s) && Resolves(s.table, i, k)
    requires Undisturbed(EventsOf(cfg, s, a), i, s.table[i].ip[k], s.table[i].port[k])
    ensures Resolves(Apply(cfg, s, a).table, i, k)
  {
    var r := Apply(cfg, s, a);
    var t := s.table;
    var addr, port := t[i].ip[k], t[i].port[k];
    ScanFindsLiveSlots(t, addr, port, t[i].ssrc[k]);
    FlowStays(cfg, s, a, i, k);
    ShapeKept(cfg, s, a);
    if a.MediaIn? && Enabled(s, a) && FindMedia(t, a.addr, a.port, a.ssrc, 0) == Hit(i, k) {
      LookupResolves(t, a.addr, a.port, a.ssrc);
      MediaTableResolves(cfg, s, a);
    } else {
      var ssrc := t[i].ssrc[k];
      NotAttributed(cfg, s, a, i, k);
      ResolvesIff(t, i, k);
      forall j: nat | j < i
        ensures TakesNoMore(r.table[j], t[j], addr, port, ssrc)
      {
        LowerSlotsTakeNoMore(cfg, s, a, i, j, addr, port, ssrc);
      }
      NoneBelowKept(t, r.table, i, addr, port, ssrc);
      ResolvesIff(r.table, i, k);
    }
  }

  lemma NotAttributed(cfg: Config, s: State, a: Action, i: nat, k: nat)
    requires Shaped(s) && i < |s.table| && s.table[i].isUsed && k < s.table[i].ipN
    requires Expired(i) !in EventsOf(cfg, s, a)
    requires !(a.MediaIn? && Enabled(s, a) && FindMedia(s.table, a.addr, a.port, a.ssrc, 0) == Hit(i, k))
    ensures i < |Apply(cfg, s, a).table| && Apply(cfg, s, a).table[i].ssrc[k] == s.table[i].ssrc[k]
    ensures |s.table| <= |Apply(cfg, s, a).table|
  {
    if a.Sweep? {
      SweepExpires(cfg, s.table, |s.table|, a.now, i);
    }
    SlotStays(cfg, s, a, i);
  }

  /** Recording the packet does not undo what its lookup established. */
  lemma MediaTableResolves(cfg: Config, s: State, a: Action)
    requires Shaped(s) && a.MediaIn? && Enabled(s, a)
    ensures var h := FindMedia(s.table, a.addr, a.port, a.ssrc, 0);
            Resolves(Apply(cfg, s, a).table, h.slot, h.flow)
  {
    var h := FindMedia(s.table, a.addr, a.port, a.ssrc, 0);
    var t := Attribute(s.table, h, a.ssrc);
    var r := Apply(cfg, s, a).table;
    LookupResolves(s.table, a.addr, a.port, a.ssrc);
    ShapeKept(cfg, s, a);
    assert SlotOk(t[h.slot]) by {
      assert SlotOk(s.table[h.slot]);
    }
    assert TableOk(t);
    ResolvesIff(t, h.slot, h.flow);
    assert forall j :: 0 <= j < h.slot ==> r[j] == t[j];
    assert forall j: nat, m: nat :: EligibleAt(r, j, m, a.addr, a.port, a.ssrc) && j < h.slot ==>
             EligibleAt(t, j, m, a.addr, a.port, a.ssrc);
    ResolvesIff(r, h.slot, h.flow);
  }

  // ---- any number of actions ----

  /** What has been added to the history since `s0`. */
  function Since(s0: State, s: State): seq<Event>
    requires |s0.log| <= |s.log|
  {
    s.log[|s0.log|..]
  }

  /** Flow (i, k) of `s0` is still the one in `s`, with the SSRC last attributed to it,
      frozen if the call had ended, and it still resolves. */
  ghost predicate SameFlow(s0: State, s: State, i: nat, k: nat)
    requires |s0.log| <= |s.log|
    requires i < |s0.table| && k < MAX_FLOWS
  {
    var a := s0.table[i];
    && i < |s.table| && s.table[i].isUsed && k < s.table[i].ipN
    && s.table[i].ip[k] == a.ip[k] && s.table[i].port[k] == a.port[k]
    && s.table[i].ssrc[k] == LastSsrc(Since(s0, s), i, k, a.ssrc[k])
    && (a.hadBye ==> s.table[i].hadBye && s.table[i].ssrc[k] == a.ssrc[k])
    && Resolves(s.table, i, k)
  }

  ghost predicate FlowFollowed(s0: State, i: nat, k: nat, s: State)
    requires i < |s0.table| && k < MAX_FLOWS
  {
    && Shaped(s) && s0.log <= s.log
    && (Undisturbed(Since(s0, s), i, s0.table[i].ip[k], s0.table[i].port[k]) ==> SameFlow(s0, s, i, k))
  }

  lemma SameFlowKept(cfg: Config, s0: State, i: nat, k: nat, s: State, a: Action)
    requires i < |s0.table| && k < MAX_FLOWS && Shaped(s) && s0.log <= s.log
    requires SameFlow(s0, s, i, k)
    requires Undisturbed(EventsOf(cfg, s, a), i, s0.table[i].ip[k], s0.table[i].port[k])
    ensures s0.log <= Apply(cfg, s, a).log && SameFlow(s0, Apply(cfg, s, a), i, k)
  {
    var r := Apply(cfg, s, a);
    LogIs(cfg, s, a);
    assert Since(s0, r) == Since(s0, s) + EventsOf(cfg, s, a);
    LastSsrcAppend(Since(s0, s), EventsOf(cfg, s, a), i, k, s0.table[i].ssrc[k]);
    FlowStays(cfg, s, a, i, k);
    ResolvesKept(cfg, s, a, i, k);
    if s0.table[i].hadBye {
      EndedSsrcStays(cfg, s, a, i, k);
    }
  }

  lemma FollowedKept(cfg: Config, s0: State, i: nat, k: nat, s: State, a: Action)
    requires i < |s0.table| && k < MAX_FLOWS && FlowFollowed(s0, i, k, s)
    ensures FlowFollowed(s0, i, k, Apply(cfg, s, a))
  {
    var r := Apply(cfg, s, a);
    ShapeKept(cfg, s, a);
    LogIs(cfg, s, a);
    var before, more := Since(s0, s), EventsOf(cfg, s, a);
    assert Since(s0, r) == before + more;
    if Undisturbed(before + more, i, s0.table[i].ip[k], s0.table[i].port[k]) {
      SameFlowKept(cfg, s0, i, k, s, a);
    }
  }

  // ---- ended calls ----

  /** As long as the call in slot `i` has not expired it is the one of `s0`, and if it
      had ended by then its flows and their SSRCs are those of `s0`. */
  ghost predicate CallFollowed(s0: State, i: nat, s: State)
    requires i < |s0.table|
  {
    && Shaped(s) && s0.log <= s.log
    && (Expired(i) !in Since(s0, s) ==>
          && i < |s.table| && s.table[i].isUsed
          && (s0.table[i].hadBye ==> Frozen(s0.table[i], s.table[i])))
  }

  ghost predicate Frozen(a: Slot, b: Slot) {
    && b.hadBye && a.ipN <= b.ipN
    && forall k :: 0 <= k < a.ipN && k < MAX_FLOWS ==>
         b.ip[k] == a.ip[k] && b.port[k] == a.port[k] && b.ssrc[k] == a.ssrc[k]
  }

  lemma FrozenKept(cfg: Config, s: State, a: Action, i: nat)
    requires Shaped(s) && i < |s.table| && s.table[i].isUsed && s.table[i].hadBye
    requires Expired(i) !in EventsOf(cfg, s, a)
    ensures i < |Apply(cfg, s, a).table| && Frozen(s.table[i], Apply(cfg, s, a).table[i])
  {
    if a.Sweep? {
      SweepExpires(cfg, s.table, |s.table|, a.now, i);
    }
    SlotStays(cfg, s, a, i);
    forall k: nat | k < s.table[i].ipN && k < MAX_FLOWS
      ensures k < Apply(cfg, s, a).table[i].ipN
      ensures Apply(cfg, s, a).table[i].ip[k] == s.table[i].ip[k]
      ensures Apply(cfg, s, a).table[i].port[k] == s.table[i].port[k]
      ensures Apply(cfg, s, a).table[i].ssrc[k] == s.table[i].ssrc[k]
    {
      FlowStays(cfg, s, a, i, k);
      EndedSsrcStays(cfg, s, a, i, k);
    }
    if s.table[i].ipN > 0 {
      FlowStays(cfg, s, a, i, s.table[i].ipN - 1);
    }
  }

  lemma FrozenTransitive(a: Slot, b: Slot, c: Slot)
    requires Frozen(a, b) && Frozen(b, c)
    ensures Frozen(a, c)
  {
  }

  lemma LiveSlotStays(cfg: Config, s: State, a: Action, i: nat)
    requires i < |s.table| && s.table[i].isUsed && Expired(i) !in EventsOf(cfg, s, a)
    ensures i < |Apply(cfg, s, a).table| && Apply(cfg, s, a).table[i].isUsed
  {
    if a.Sweep? {
      SweepExpires(cfg, s.table, |s.table|, a.now, i);
    }
    SlotStays(cfg, s, a, i);
  }

  lemma CallKept(cfg: Config, s0: State, i: nat, s: State, a: Action)
    requires i < |s0.table| && CallFollowed(s0, i, s)
    ensures CallFollowed(s0, i, Apply(cfg, s, a))
  {
    var r := Apply(cfg, s, a);
    ShapeKept(cfg, s, a);
    LogIs(cfg, s, a);
    assert Since(s0, r) == Since(s0, s) + EventsOf(cfg, s, a);
    if Expired(i) !in Since(s0, r) {
      LiveSlotStays(cfg, s, a, i);
      if s0.table[i].hadBye {
        FrozenKept(cfg, s, a, i);
        FrozenTransitive(s0.table[i], s.table[i], r.table[i]);
      }
    }
  }

  /** An ended call is only ever attributed the SSRC it already has. */
  lemma NoForeignSsrc(cfg: Config, s: State, a: Action, i: nat, k: nat, ssrc: Ssrc)
    requires Attributed(i, k, ssrc) in EventsOf(cfg, s, a)
    ensures i < |s.table| && k < MAX_FLOWS
    ensures s.table[i].hadBye ==> s.table[i].ssrc[k] == ssrc
  {
    if !a.MediaIn? {
      OthersAttributeNothing(cfg, s, a);
    }
  }
}
