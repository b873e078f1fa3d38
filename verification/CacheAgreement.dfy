/** When the cached build answers like the linear scan. */
module CacheAgreement {
  import opened Text
  import opened Slots
  import opened Machine
  import opened TableShape
  import opened FlowTracking
  import opened CachedTables

  // ---- what the scan answers when no pair is tracked twice ----

  predicate TrackedAt(t: Table, i: nat, k: nat, addr: Addr, port: Port) {
    i < |t| && Tracks(t[i], k, addr, port)
  }

  /** No pair is tracked by two calls. */
  ghost predicate Sole(t: Table) {
    forall i: nat, j: nat, k: nat, m: nat, addr: Addr, port: Port ::
      TrackedAt(t, i, k, addr, port) && TrackedAt(t, j, m, addr, port) ==> i == j
  }

  /** SSRC cells of flows not yet tracked are zero. */
  ghost predicate SsrcClean(t: Table) {
    forall i, k: nat :: 0 <= i < |t| && t[i].ipN <= k < MAX_FLOWS ==> t[i].ssrc[k] == 0
  }

  lemma ScanOfTracked(t: Table, addr: Addr, port: Port, ssrc: Ssrc, i: nat, k: nat)
    requires TableOk(t) && Sole(t) && TrackedAt(t, i, k, addr, port)
    ensures FindMedia(t, addr, port, ssrc, 0) ==
            if !t[i].hadBye || t[i].ssrc[k] == ssrc then Hit(i, k) else Miss
  {
    var h := FindMedia(t, addr, port, ssrc, 0);
    assert h.Hit? ==> TrackedAt(t, h.slot, h.flow, addr, port);
    assert SlotOk(t[i]);
    assert EligibleAt(t, i, k, addr, port, ssrc) <==> !t[i].hadBye || t[i].ssrc[k] == ssrc;
  }

  lemma ScanOfUntracked(t: Table, addr: Addr, port: Port, ssrc: Ssrc)
    requires forall i: nat, k: nat :: !TrackedAt(t, i, k, addr, port)
    ensures FindMedia(t, addr, port, ssrc, 0) == Miss
  {
    var h := FindMedia(t, addr, port, ssrc, 0);
    assert h.Hit? ==> TrackedAt(t, h.slot, h.flow, addr, port);
  }

  // ---- coherence ----

  ghost predicate EntryOk(t: Table, x: Pair, e: Entry) {
    match e.hit
    case Hit(i, k) => TrackedAt(t, i, k, x.0, x.1) && t[i].ssrc[k] == e.ssrc
    case Miss => forall i: nat, k: nat :: !TrackedAt(t, i, k, x.0, x.1)
  }

  /** Every entry, negative ones included, tells the truth about the table, and every
      tracked flow has one. */
  ghost predicate Coherent(c: Cached) {
    && TableOk(c.table) && Sole(c.table) && SsrcClean(c.table)
    && (forall x :: x in c.flows ==> EntryOk(c.table, x, c.flows[x]))
    && (forall i: nat, k: nat, x: Pair :: TrackedAt(c.table, i, k, x.0, x.1) ==> x in c.flows)
  }

  lemma CoherentInTable(c: Cached)
    requires Coherent(c)
    ensures InTable(c)
  {
    forall x | x in c.flows && c.flows[x].hit.Hit?
      ensures c.flows[x].hit.slot < |c.table| && c.flows[x].hit.flow < MAX_FLOWS
    {
      assert EntryOk(c.table, x, c.flows[x]);
    }
  }

  /** The cached lookup returns what the scan returns, for every query. */
  ghost predicate AgreesEverywhere(c: Cached) {
    && InTable(c)
    && forall addr: Addr, port: Port, ssrc: Ssrc ::
         CachedLookup(c, addr, port, ssrc).hit == FindMedia(c.table, addr, port, ssrc, 0)
  }

  /** A lookup brings a new SSRC to a tracked flow of an ended call. */
  ghost predicate NewSsrcAfterBye(t: Table, addr: Addr, port: Port, ssrc: Ssrc) {
    exists i: nat, k: nat :: TrackedAt(t, i, k, addr, port) && t[i].hadBye && t[i].ssrc[k] != ssrc
  }

  /** On a coherent cache a lookup gives the scan's answer and the scan's table. */
  lemma LookupAgrees(c: Cached, addr: Addr, port: Port, ssrc: Ssrc)
    requires Coherent(c)
    ensures InTable(c)
    ensures var h := FindMedia(c.table, addr, port, ssrc, 0);
            && CachedLookup(c, addr, port, ssrc).hit == h
            && CachedLookup(c, addr, port, ssrc).after.table == Attribute(c.table, h, ssrc)
  {
    CoherentInTable(c);
    if (addr, port) in c.flows {
      var e := c.flows[(addr, port)];
      assert EntryOk(c.table, (addr, port), e);
      if e.hit.Miss? {
        ScanOfUntracked(c.table, addr, port, ssrc);
      } else {
        ScanOfTracked(c.table, addr, port, ssrc, e.hit.slot, e.hit.flow);
        SameSsrcIsNoWrite(c.table, e.hit, ssrc);
      }
    }
  }

  lemma SameSsrcIsNoWrite(t: Table, h: Hit, ssrc: Ssrc)
    requires h.Hit? && h.slot < |t| && h.flow < MAX_FLOWS
    ensures t[h.slot].ssrc[h.flow] == ssrc ==> Attribute(t, h, ssrc) == t
  {
    if t[h.slot].ssrc[h.flow] == ssrc {
      assert t[h.slot].ssrc[h.flow := ssrc] == t[h.slot].ssrc;
    }
  }

  lemma CoherentAgrees(c: Cached)
    requires Coherent(c)
    ensures AgreesEverywhere(c)
  {
    CoherentInTable(c);
    forall addr: Addr, port: Port, ssrc: Ssrc
      ensures CachedLookup(c, addr, port, ssrc).hit == FindMedia(c.table, addr, port, ssrc, 0)
    {
      LookupAgrees(c, addr, port, ssrc);
    }
  }

  /** Writing one tracked flow's SSRC changes nothing else that coherence speaks of. */
  lemma AttributeKeepsTracking(t: Table, i: nat, k: nat, ssrc: Ssrc)
    requires TableOk(t) && SsrcClean(t) && Sole(t) && i < |t| && t[i].isUsed && k < MAX_FLOWS && k < t[i].ipN
    ensures var r := Attribute(t, Hit(i, k), ssrc);
            && TableOk(r) && SsrcClean(r) && Sole(r)
            && forall j: nat, m: nat, addr: Addr, port: Port ::
                 TrackedAt(r, j, m, addr, port) == TrackedAt(t, j, m, addr, port)
  {
    var r := Attribute(t, Hit(i, k), ssrc);
    assert SlotOk(r[i]) by {
      assert SlotOk(t[i]);
    }
    assert forall j: nat, m: nat, addr: Addr, port: Port ::
             TrackedAt(r, j, m, addr, port) == TrackedAt(t, j, m, addr, port);
  }

  /** Caching a flow with the SSRC just attributed to it. */
  lemma AttributeCoherent(c: Cached, addr: Addr, port: Port, ssrc: Ssrc, i: nat, k: nat)
    requires Coherent(c) && TrackedAt(c.table, i, k, addr, port)
    ensures Coherent(c.(table := Attribute(c.table, Hit(i, k), ssrc),
                        flows := c.flows[(addr, port) := Entry(Hit(i, k), ssrc)]))
  {
    var r := Attribute(c.table, Hit(i, k), ssrc);
    var flows := c.flows[(addr, port) := Entry(Hit(i, k), ssrc)];
    assert c.table[i] != ZERO;
    AttributeKeepsTracking(c.table, i, k, ssrc);
    forall x | x in flows
      ensures EntryOk(r, x, flows[x])
    {
      if x != (addr, port) {
        assert EntryOk(c.table, x, c.flows[x]);
      }
    }
  }

  lemma MissCoherent(c: Cached, addr: Addr, port: Port)
    requires Coherent(c) && forall i: nat, k: nat :: !TrackedAt(c.table, i, k, addr, port)
    ensures Coherent(c.(flows := c.flows[(addr, port) := Entry(Miss, 0)]))
  {
  }

  /** Without a new SSRC on an ended flow, a lookup leaves the cache coherent. */
  lemma LookupKeepsCoherence(c: Cached, addr: Addr, port: Port, ssrc: Ssrc)
    requires Coherent(c) && !NewSsrcAfterBye(c.table, addr, port, ssrc)
    ensures InTable(c) && Coherent(CachedLookup(c, addr, port, ssrc).after)
  {
    CoherentInTable(c);
    if (addr, port) in c.flows {
      var e := c.flows[(addr, port)];
      assert EntryOk(c.table, (addr, port), e);
      if e.hit.Hit? && ssrc != e.ssrc {
        AttributeCoherent(c, addr, port, ssrc, e.hit.slot, e.hit.flow);
      }
    } else {
      ScanOfUntracked(c.table, addr, port, ssrc);
      MissCoherent(c, addr, port);
    }
  }

  /** With one, it leaves a negative entry over a tracked flow. */
  lemma NewSsrcLeavesNegative(c: Cached, addr: Addr, port: Port, ssrc: Ssrc, i: nat, k: nat)
    requires Coherent(c) && InTable(c)
    requires TrackedAt(c.table, i, k, addr, port) && c.table[i].hadBye && c.table[i].ssrc[k] != ssrc
    ensures var after := CachedLookup(c, addr, port, ssrc).after;
            after.table == c.table && (addr, port) in after.flows && after.flows[(addr, port)] == Entry(Miss, 0)
  {
    var x: Pair := (addr, port);
    assert x in c.flows;
    assert EntryOk(c.table, x, c.flows[x]);
    assert SlotOk(c.table[i]);
    ScanOfTracked(c.table, addr, port, ssrc, i, k);
  }

  lemma NegativeDisagrees(c: Cached, addr: Addr, port: Port, i: nat, k: nat)
    requires TableOk(c.table) && Sole(c.table) && TrackedAt(c.table, i, k, addr, port)
    requires (addr, port) in c.flows && c.flows[(addr, port)].hit.Miss?
    ensures !AgreesEverywhere(c)
  {
    var own := c.table[i].ssrc[k];
    ScanOfTracked(c.table, addr, port, own, i, k);
    assert InTable(c) ==> CachedLookup(c, addr, port, own).hit == Miss;
  }

  /** The flow's own SSRC is then no longer found through the cache. */
  lemma NewSsrcBreaks(c: Cached, addr: Addr, port: Port, ssrc: Ssrc)
    requires Coherent(c) && NewSsrcAfterBye(c.table, addr, port, ssrc)
    ensures InTable(c) && !AgreesEverywhere(CachedLookup(c, addr, port, ssrc).after)
  {
    CoherentInTable(c);
    var i: nat, k: nat :| TrackedAt(c.table, i, k, addr, port) && c.table[i].hadBye && c.table[i].ssrc[k] != ssrc;
    NewSsrcLeavesNegative(c, addr, port, ssrc, i, k);
    NegativeDisagrees(CachedLookup(c, addr, port, ssrc).after, addr, port, i, k);
  }

  /** So a lookup keeps the cached build in agreement with the scan exactly when it
      brings no new SSRC to a tracked flow of an ended call. */
  lemma LookupKeepsAgreementIff(c: Cached, addr: Addr, port: Port, ssrc: Ssrc)
    requires Coherent(c)
    ensures InTable(c)
    ensures AgreesEverywhere(CachedLookup(c, addr, port, ssrc).after) <==> !NewSsrcAfterBye(c.table, addr, port, ssrc)
  {
    if NewSsrcAfterBye(c.table, addr, port, ssrc) {
      NewSsrcBreaks(c, addr, port, ssrc);
    } else {
      LookupKeepsCoherence(c, addr, port, ssrc);
      CoherentAgrees(CachedLookup(c, addr, port, ssrc).after);
    }
  }

  // ---- registering a flow ----

  /** A lower slot tracks the pair and would not be told apart from slot `i`'s new flow. */
  ghost predicate Shadowed(t: Table, i: nat, addr: Addr, port: Port)
    requires i < |t|
  {
    exists j: nat, m: nat :: j < i && TrackedAt(t, j, m, addr, port)
                             && !(t[i].hadBye && t[j].hadBye && t[j].ssrc[m] != 0)
  }

  ghost predicate TrackedElsewhere(t: Table, i: nat, addr: Addr, port: Port) {
    exists j: nat, m: nat :: j != i && TrackedAt(t, j, m, addr, port)
  }

  /** What registering changes in the table's tracking. */
  lemma OfferTracks(t: Table, i: nat, addr: Addr, port: Port)
    requires TableOk(t) && SsrcClean(t) && i < |t| && t[i].isUsed
    ensures var r := t[i := AddFlow(t[i], addr, port)];
            && TableOk(r) && SsrcClean(r)
            && (forall j: nat, k: nat, a: Addr, p: Port :: TrackedAt(t, j, k, a, p) ==>
                  TrackedAt(r, j, k, a, p) && r[j].ssrc == t[j].ssrc)
            && (forall j: nat, k: nat, a: Addr, p: Port :: TrackedAt(r, j, k, a, p) ==>
                  || TrackedAt(t, j, k, a, p)
                  || (j == i && Registers(t[i], addr, port) && k == t[i].ipN && a == addr && p == port))
  {
    AddFlowOk(t[i], addr, port);
  }

  /** If no other call tracks the pair, registering it keeps the cache coherent. */
  lemma OfferKeepsCoherence(c: Cached, i: nat, addr: Addr, port: Port)
    requires Coherent(c) && i < |c.table| && c.table[i].isUsed
    requires !TrackedElsewhere(c.table, i, addr, port)
    ensures Coherent(CachedOffer(c, i, addr, port))
  {
    var r := CachedOffer(c, i, addr, port);
    OfferTracks(c.table, i, addr, port);
    if Registers(c.table[i], addr, port) {
      assert TrackedAt(r.table, i, c.table[i].ipN, addr, port);
      forall x | x in r.flows
        ensures EntryOk(r.table, x, r.flows[x])
      {
        if x != (addr, port) {
          assert EntryOk(c.table, x, c.flows[x]);
        }
      }
    } else {
      assert r.table == c.table;
    }
  }

  /** Other pairs are answered as before. */
  lemma OfferOtherPairs(c: Cached, i: nat, addr: Addr, port: Port, a: Addr, p: Port, ssrc: Ssrc)
    requires Coherent(c) && i < |c.table| && c.table[i].isUsed
    requires InTable(CachedOffer(c, i, addr, port)) && (a, p) != (addr, port)
    ensures CachedLookup(CachedOffer(c, i, addr, port), a, p, ssrc).hit ==
            FindMedia(CachedOffer(c, i, addr, port).table, a, p, ssrc, 0)
  {
    OfferOtherScan(c.table, i, addr, port, a, p, ssrc);
    OfferOtherLookup(c, i, addr, port, a, p, ssrc);
    LookupAgrees(c, a, p, ssrc);
  }

  /** The scan finds for other pairs what it found before. */
  lemma OfferOtherScan(t: Table, i: nat, addr: Addr, port: Port, a: Addr, p: Port, ssrc: Ssrc)
    requires TableOk(t) && SsrcClean(t) && i < |t| && t[i].isUsed && (a, p) != (addr, port)
    ensures FindMedia(t[i := AddFlow(t[i], addr, port)], a, p, ssrc, 0) == FindMedia(t, a, p, ssrc, 0)
  {
    var r := t[i := AddFlow(t[i], addr, port)];
    OfferTracks(t, i, addr, port);
    forall j: nat, k: nat
      ensures EligibleAt(r, j, k, a, p, ssrc) == EligibleAt(t, j, k, a, p, ssrc)
    {
      assert TrackedAt(r, j, k, a, p) <==> TrackedAt(t, j, k, a, p);
    }
    SameEligibleSameHit(t, r, a, p, ssrc);
  }

  /** So does a cached lookup. */
  lemma OfferOtherLookup(c: Cached, i: nat, addr: Addr, port: Port, a: Addr, p: Port, ssrc: Ssrc)
    requires Coherent(c) && InTable(c) && i < |c.table| && c.table[i].isUsed
    requires InTable(CachedOffer(c, i, addr, port)) && (a, p) != (addr, port)
    ensures CachedLookup(CachedOffer(c, i, addr, port), a, p, ssrc).hit == CachedLookup(c, a, p, ssrc).hit
  {
    OfferOtherScan(c.table, i, addr, port, a, p, ssrc);
    if (a, p) in c.flows {
      var x: Pair := (a, p);
      assert EntryOk(c.table, x, c.flows[x]);
    }
  }

  lemma SameEligibleSameHit(t: Table, r: Table, addr: Addr, port: Port, ssrc: Ssrc)
    requires forall j: nat, k: nat :: EligibleAt(r, j, k, addr, port, ssrc) == EligibleAt(t, j, k, addr, port, ssrc)
    ensures FindMedia(r, addr, port, ssrc, 0) == FindMedia(t, addr, port, ssrc, 0)
  {
    var g, h := FindMedia(r, addr, port, ssrc, 0), FindMedia(t, addr, port, ssrc, 0);
    if g.Hit? {
      assert EligibleAt(t, g.slot, g.flow, addr, port, ssrc);
    }
    if h.Hit? {
      assert EligibleAt(r, h.slot, h.flow, addr, port, ssrc);
    }
  }

  lemma OfferInTable(c: Cached, i: nat, addr: Addr, port: Port)
    requires Coherent(c) && i < |c.table|
    ensures InTable(CachedOffer(c, i, addr, port))
  {
    CoherentInTable(c);
  }

  /** The new flow is the scan's answer when nothing below shadows it. */
  lemma UnshadowedIsFound(c: Cached, i: nat, addr: Addr, port: Port, ssrc: Ssrc)
    requires Coherent(c) && i < |c.table| && c.table[i].isUsed && Registers(c.table[i], addr, port)
    requires !Shadowed(c.table, i, addr, port)
    requires !c.table[i].hadBye || ssrc == 0
    ensures FindMedia(CachedOffer(c, i, addr, port).table, addr, port, ssrc, 0) == Hit(i, c.table[i].ipN)
  {
    var t, r := c.table, CachedOffer(c, i, addr, port).table;
    OfferTracks(t, i, addr, port);
    assert TrackedAt(r, i, t[i].ipN, addr, port);
    assert EligibleAt(r, i, t[i].ipN, addr, port, ssrc);
    assert forall j: nat, m: nat :: EligibleAt(r, j, m, addr, port, ssrc) && j <= i ==>
             TrackedAt(t, j, m, addr, port) || (j == i && m == t[i].ipN);
    assert forall m: nat :: !TrackedAt(t, i, m, addr, port);
  }

  /** A shadowing call answers some query differently from the cache. */
  lemma ShadowedDiffers(c: Cached, i: nat, addr: Addr, port: Port) returns (ssrc: Ssrc)
    requires Coherent(c) && i < |c.table| && c.table[i].isUsed && Registers(c.table[i], addr, port)
    requires Shadowed(c.table, i, addr, port)
    ensures !c.table[i].hadBye || ssrc == 0
    ensures FindMedia(CachedOffer(c, i, addr, port).table, addr, port, ssrc, 0) != Hit(i, c.table[i].ipN)
  {
    var t, r := c.table, CachedOffer(c, i, addr, port).table;
    OfferTracks(t, i, addr, port);
    var j: nat, m: nat :| j < i && TrackedAt(t, j, m, addr, port)
                          && !(t[i].hadBye && t[j].hadBye && t[j].ssrc[m] != 0);
    ssrc := if t[i].hadBye then 0 else t[j].ssrc[m];
    assert EligibleAt(r, j, m, addr, port, ssrc);
  }

  /** What the cache answers for the pair just registered. */
  lemma LookupAfterOffer(c: Cached, i: nat, addr: Addr, port: Port, ssrc: Ssrc)
    requires Coherent(c) && i < |c.table| && Registers(c.table[i], addr, port)
    requires InTable(CachedOffer(c, i, addr, port))
    ensures var r := CachedOffer(c, i, addr, port);
            CachedLookup(r, addr, port, ssrc).hit ==
            if !c.table[i].hadBye || ssrc == 0 then Hit(i, c.table[i].ipN) else FindMedia(r.table, addr, port, ssrc, 0)
  {
  }

  /** Registering a flow keeps the cached build in agreement with the scan exactly when
      no lower slot shadows the pair. */
  lemma OfferKeepsAgreementIff(c: Cached, i: nat, addr: Addr, port: Port)
    requires Coherent(c) && i < |c.table| && c.table[i].isUsed && Registers(c.table[i], addr, port)
    ensures AgreesEverywhere(CachedOffer(c, i, addr, port)) <==> !Shadowed(c.table, i, addr, port)
  {
    var r := CachedOffer(c, i, addr, port);
    OfferInTable(c, i, addr, port);
    if Shadowed(c.table, i, addr, port) {
      var ssrc := ShadowedDiffers(c, i, addr, port);
      LookupAfterOffer(c, i, addr, port, ssrc);
      assert CachedLookup(r, addr, port, ssrc).hit != FindMedia(r.table, addr, port, ssrc, 0);
    } else {
      forall a: Addr, p: Port, ssrc: Ssrc
        ensures CachedLookup(r, a, p, ssrc).hit == FindMedia(r.table, a, p, ssrc, 0)
      {
        if (a, p) == (addr, port) {
          LookupAfterOffer(c, i, addr, port, ssrc);
          if !c.table[i].hadBye || ssrc == 0 {
            UnshadowedIsFound(c, i, addr, port, ssrc);
          }
        } else {
          OfferOtherPairs(c, i, addr, port, a, p, ssrc);
        }
      }
    }
  }

  // ---- expiry ----

  /** The sweep ends a call that tracks a flow. */
  ghost predicate ExpiresTracked(t: Table, now: int, limit: int) {
    exists i :: 0 <= i < |t| && Expires(t[i], now, limit) && t[i].ipN > 0
  }

  lemma SweepTracks(t: Table, now: int, limit: int)
    requires TableOk(t) && Sole(t) && SsrcClean(t)
    ensures var r := Swept(t, now, limit);
            && TableOk(r) && Sole(r) && SsrcClean(r)
            && (forall i: nat, k: nat, a: Addr, p: Port :: TrackedAt(r, i, k, a, p) <==>
                  TrackedAt(t, i, k, a, p) && !Expires(t[i], now, limit))
  {
    var r := Swept(t, now, limit);
    assert forall i: nat, k: nat, a: Addr, p: Port :: TrackedAt(r, i, k, a, p) <==>
             TrackedAt(t, i, k, a, p) && !Expires(t[i], now, limit);
  }

  lemma UntrackedSweepKeepsCoherence(c: Cached, now: int, limit: int)
    requires Coherent(c) && !ExpiresTracked(c.table, now, limit)
    ensures Coherent(CachedSweep(c, now, limit))
  {
    var r := Swept(c.table, now, limit);
    SweepTracks(c.table, now, limit);
    forall x | x in c.flows
      ensures EntryOk(r, x, c.flows[x])
    {
      assert EntryOk(c.table, x, c.flows[x]);
    }
  }

  /** The entry of an expired flow stays and still names the dead slot. */
  lemma TrackedSweepBreaks(c: Cached, now: int, limit: int)
    requires Coherent(c) && ExpiresTracked(c.table, now, limit)
    ensures !AgreesEverywhere(CachedSweep(c, now, limit))
  {
    var i :| 0 <= i < |c.table| && Expires(c.table[i], now, limit) && c.table[i].ipN > 0;
    var s := c.table[i];
    assert SlotOk(s);
    var x: Pair := (s.ip[0], s.port[0]);
    assert TrackedAt(c.table, i, 0, x.0, x.1);
    var e := c.flows[x];
    assert EntryOk(c.table, x, e);
    var r := CachedSweep(c, now, limit);
    SweepTracks(c.table, now, limit);
    ScanOfUntracked(r.table, x.0, x.1, e.ssrc);
    assert InTable(r) ==> CachedLookup(r, x.0, x.1, e.ssrc).hit == e.hit;
  }

  /** A sweep keeps the cached build in agreement with the scan exactly when no call
      it ends tracks a flow. */
  lemma SweepKeepsAgreementIff(c: Cached, now: int, limit: int)
    requires Coherent(c)
    ensures AgreesEverywhere(CachedSweep(c, now, limit)) <==> !ExpiresTracked(c.table, now, limit)
  {
    if ExpiresTracked(c.table, now, limit) {
      TrackedSweepBreaks(c, now, limit);
    } else {
      UntrackedSweepKeepsCoherence(c, now, limit);
      CoherentAgrees(CachedSweep(c, now, limit));
    }
  }

  // ---- adding and ending calls ----

  lemma AddKeepsCoherence(c: Cached, id: string, caller: NameText, callee: NameText, time: int)
    requires Coherent(c)
    ensures Coherent(CachedAdd(c, id, caller, callee, time))
  {
    var t, r := c.table, CachedAdd(c, id, caller, callee, time).table;
    var idx := FreeSlot(t, 0);
    var grown := if idx == |t| then t + [ZERO] else t;
    FillOk(grown[idx], id, caller, callee, time);
    RecycledLikeFresh(t, id, caller, callee, time);
    assert forall i: nat, k: nat, a: Addr, p: Port :: TrackedAt(r, i, k, a, p) <==> TrackedAt(t, i, k, a, p);
    forall x | x in c.flows
      ensures EntryOk(r, x, c.flows[x])
    {
      assert EntryOk(t, x, c.flows[x]);
    }
  }

  function CachedBye(c: Cached, i: nat): Cached
    requires i < |c.table|
  {
    c.(table := c.table[i := c.table[i].(hadBye := true)])
  }

  lemma ByeKeepsCoherence(c: Cached, i: nat)
    requires Coherent(c) && i < |c.table| && c.table[i].isUsed
    ensures Coherent(CachedBye(c, i))
  {
    var t, r := c.table, CachedBye(c, i).table;
    assert SlotOk(r[i]) by {
      assert SlotOk(t[i]);
    }
    assert forall j: nat, k: nat, a: Addr, p: Port :: TrackedAt(r, j, k, a, p) <==> TrackedAt(t, j, k, a, p);
    forall x | x in c.flows
      ensures EntryOk(r, x, c.flows[x])
    {
      assert EntryOk(t, x, c.flows[x]);
    }
  }

  // ---- the Call-ID index ----

  ghost predicate IdsAgree(c: Cached) {
    forall id: string :: CachedFind(c, id) == FindCall(c.table, KeyOf(id), 0)
  }

  /** Two different Call-IDs that the table cannot tell apart. */
  lemma LongIdsCollide(id: string) returns (other: string)
    requires |id| > CALL_ID_SIZE
    ensures other != id && KeyOf(other) == KeyOf(id)
  {
    var n := |id| - 1;
    other := id[..n] + [if id[n] == 'x' then 'y' else 'x'];
    assert other[n] != id[n];
    assert other[..CALL_ID_SIZE] == id[..CALL_ID_SIZE];
  }

  /** Short Call-IDs are told apart. */
  lemma ShortIdsDiffer(id: string, other: string)
    requires |id| <= CALL_ID_SIZE && KeyOf(other) == KeyOf(id)
    ensures other == id
  {
    assert id[..|id|] == id && other[..|other|] == other;
  }

  /** Adding an absent call keeps the Call-ID index in agreement with the scan exactly
      when the Call-ID has at most 32 bytes. */
  lemma AddKeepsIdsIff(c: Cached, id: string, caller: NameText, callee: NameText, time: int)
    requires IdsAgree(c) && TableOk(c.table) && UniqueKeys(c.table) && FindCall(c.table, KeyOf(id), 0) < 0
    ensures IdsAgree(CachedAdd(c, id, caller, callee, time)) <==> |id| <= 32
  {
    var r := CachedAdd(c, id, caller, callee, time);
    if |id| <= CALL_ID_SIZE {
      forall other: string
        ensures CachedFind(r, other) == FindCall(r.table, KeyOf(other), 0)
      {
        FindAfterAdd(c.table, id, caller, callee, time, KeyOf(other));
        assert CachedFind(c, other) == FindCall(c.table, KeyOf(other), 0);
        if KeyOf(other) == KeyOf(id) {
          ShortIdsDiffer(id, other);
        }
      }
    } else {
      var other := LongIdsCollide(id);
      FindAfterAdd(c.table, id, caller, callee, time, KeyOf(other));
      assert CachedFind(c, other) == FindCall(c.table, KeyOf(other), 0);
      assert CachedFind(r, other) != FindCall(r.table, KeyOf(other), 0);
    }
  }

  /** A Call-ID that the table would keep under the key. */
  lemma KeyHasId(s: Slot) returns (id: string)
    ensures KeyOf(id) == SlotKey(s)
  {
    id := if s.callIdLen <= CALL_ID_SIZE then s.callId[..s.callIdLen]
          else s.callId + Nuls(s.callIdLen - CALL_ID_SIZE);
    assert id[..Min(|id|, CALL_ID_SIZE)] == s.callId[..Min(s.callIdLen, CALL_ID_SIZE)];
  }

  /** What the scan finds after a sweep. */
  lemma FindAfterSweep(t: Table, now: int, limit: int, key: CallKey)
    requires UniqueKeys(t)
    ensures var i := FindCall(t, key, 0);
            FindCall(Swept(t, now, limit), key, 0) == if i >= 0 && Expires(t[i], now, limit) then -1 else i
  {
    var r := Swept(t, now, limit);
    FindIsLookup(t, key);
    FindIsLookup(r, key);
    var i, j := FindCall(t, key, 0), FindCall(r, key, 0);
    assert i >= 0 ==> SlotKey(t[i]) == key;
    assert j >= 0 ==> SlotKey(t[j]) == key && t[j].isUsed;
  }

  ghost predicate ExpiresNamed(t: Table, now: int, limit: int) {
    exists i :: 0 <= i < |t| && Expires(t[i], now, limit) && t[i].callIdLen != 0
  }

  lemma NamedSweepBreaksIds(c: Cached, now: int, limit: int)
    requires IdsAgree(c) && UniqueKeys(c.table) && ExpiresNamed(c.table, now, limit)
    ensures !IdsAgree(CachedSweep(c, now, limit))
  {
    var i :| 0 <= i < |c.table| && Expires(c.table[i], now, limit) && c.table[i].callIdLen != 0;
    var id := KeyHasId(c.table[i]);
    FindIsLookup(c.table, KeyOf(id));
    FindAfterSweep(c.table, now, limit, KeyOf(id));
    assert CachedFind(c, id) == i;
    var r := CachedSweep(c, now, limit);
    assert CachedFind(r, id) != FindCall(r.table, KeyOf(id), 0);
  }

  lemma UnnamedSweepKeepsIds(c: Cached, now: int, limit: int, id: string)
    requires IdsAgree(c) && UniqueKeys(c.table) && !ExpiresNamed(c.table, now, limit)
    ensures var r := CachedSweep(c, now, limit); CachedFind(r, id) == FindCall(r.table, KeyOf(id), 0)
  {
    FindAfterSweep(c.table, now, limit, KeyOf(id));
    var i := FindCall(c.table, KeyOf(id), 0);
    assert CachedFind(c, id) == i;
    if i >= 0 && Expires(c.table[i], now, limit) {
      assert c.table[i].callIdLen == 0;
    }
    if id == "" {
      assert forall j :: 0 <= j < |c.table| && Expires(c.table[j], now, limit) ==> SlotKey(c.table[j]) == KeyOf("");
      FindIsLookup(c.table, KeyOf(""));
    }
  }

  /** A sweep keeps the Call-ID index in agreement exactly when every call it ends has
      the empty Call-ID, the only key it erases. */
  lemma SweepKeepsIdsIff(c: Cached, now: int, limit: int)
    requires IdsAgree(c) && UniqueKeys(c.table)
    ensures IdsAgree(CachedSweep(c, now, limit)) <==> !ExpiresNamed(c.table, now, limit)
  {
    if ExpiresNamed(c.table, now, limit) {
      NamedSweepBreaksIds(c, now, limit);
    } else {
      forall id: string
        ensures var r := CachedSweep(c, now, limit); CachedFind(r, id) == FindCall(r.table, KeyOf(id), 0)
      {
        UnnamedSweepKeepsIds(c, now, limit, id);
      }
    }
  }

  // ---- any interleaving ----

  datatype Op =
    | Add(id: string, caller: NameText, callee: NameText, time: int)
    | Offer(slot: nat, addr: Addr, port: Port)
    | Bye(slot: nat)
    | Media(addr: Addr, port: Port, ssrc: Ssrc)
    | Find(id: string)

  datatype Answer = Silent | Slot(idx: int) | Flow(hit: Hit)

  /** What a caller of the plain table can check before each operation. */
  ghost predicate Clean(t: Table, op: Op) {
    match op
    case Add(id, _, _, _) => |id| <= CALL_ID_SIZE && FindCall(t, KeyOf(id), 0) < 0
    case Offer(i, addr, port) => i < |t| && t[i].isUsed && !TrackedElsewhere(t, i, addr, port)
    case Bye(i) => i < |t| && t[i].isUsed
    case Media(addr, port, ssrc) => !NewSsrcAfterBye(t, addr, port, ssrc)
    case Find(_) => true
  }

  function ScanTable(t: Table, op: Op): Table {
    match op
    case Add(id, caller, callee, time) => AddCall(t, id, caller, callee, time)
    case Offer(i, addr, port) => if i < |t| then t[i := AddFlow(t[i], addr, port)] else t
    case Bye(i) => if i < |t| then t[i := t[i].(hadBye := true)] else t
    case Media(addr, port, ssrc) => Attribute(t, FindMedia(t, addr, port, ssrc, 0), ssrc)
    case Find(_) => t
  }

  function ScanAnswer(t: Table, op: Op): Answer {
    match op
    case Add(_, _, _, _) => Slot(FreeSlot(t, 0))
    case Media(addr, port, ssrc) => Flow(FindMedia(t, addr, port, ssrc, 0))
    case Find(id) => Slot(FindCall(t, KeyOf(id), 0))
    case _ => Silent
  }

  ghost function CachedAfter(c: Cached, op: Op): Cached {
    match op
    case Add(id, caller, callee, time) => CachedAdd(c, id, caller, callee, time)
    case Offer(i, addr, port) => if i < |c.table| then CachedOffer(c, i, addr, port) else c
    case Bye(i) => if i < |c.table| then CachedBye(c, i) else c
    case Media(addr, port, ssrc) => if InTable(c) then CachedLookup(c, addr, port, ssrc).after else c
    case Find(_) => c
  }

  ghost function CachedAnswer(c: Cached, op: Op): Answer {
    match op
    case Add(_, _, _, _) => Slot(FreeSlot(c.table, 0))
    case Media(addr, port, ssrc) => if InTable(c) then Flow(CachedLookup(c, addr, port, ssrc).hit) else Silent
    case Find(id) => Slot(CachedFind(c, id))
    case _ => Silent
  }

  ghost predicate Agreeing(c: Cached) { Coherent(c) && IdsAgree(c) && UniqueKeys(c.table) }

  /** Operations that leave every call in its slot keep the Call-ID index right. */
  lemma SameCallsSameIds(c: Cached, r: Cached)
    requires IdsAgree(c) && UniqueKeys(c.table) && UniqueKeys(r.table) && r.ids == c.ids
    requires |r.table| == |c.table| && forall i :: 0 <= i < |r.table| ==> SameCall(r.table[i], c.table[i])
    ensures IdsAgree(r)
  {
    SameCalls(c.table, r.table);
    forall id: string
      ensures CachedFind(r, id) == FindCall(r.table, KeyOf(id), 0)
    {
      FindIsLookup(c.table, KeyOf(id));
      FindIsLookup(r.table, KeyOf(id));
      assert CachedFind(c, id) == FindCall(c.table, KeyOf(id), 0);
    }
  }

  lemma UpdateKeepsKeys(t: Table, i: nat, s: Slot)
    requires UniqueKeys(t) && i < |t| && SameCall(s, t[i])
    ensures UniqueKeys(t[i := s])
    ensures forall j :: 0 <= j < |t| ==> SameCall(t[i := s][j], t[j])
  {
  }

  lemma LookupKeepsIds(c: Cached, addr: Addr, port: Port, ssrc: Ssrc)
    requires Agreeing(c) && InTable(c)
    ensures IdsAgree(CachedLookup(c, addr, port, ssrc).after)
    ensures UniqueKeys(CachedLookup(c, addr, port, ssrc).after.table)
  {
    var h := FindMedia(c.table, addr, port, ssrc, 0);
    var r := CachedLookup(c, addr, port, ssrc).after;
    LookupAgrees(c, addr, port, ssrc);
    if h.Hit? {
      UpdateKeepsKeys(c.table, h.slot, Attribute(c.table, h, ssrc)[h.slot]);
    }
    SameCallsSameIds(c, r);
  }

  /** One clean operation: the same answer, the same table, and agreement afterwards. */
  lemma OpAgrees(c: Cached, op: Op)
    requires Agreeing(c) && Clean(c.table, op)
    ensures CachedAnswer(c, op) == ScanAnswer(c.table, op)
    ensures CachedAfter(c, op).table == ScanTable(c.table, op)
    ensures Agreeing(CachedAfter(c, op))
  {
    match op
    case Add(id, caller, callee, time) =>
      AddKeepsCoherence(c, id, caller, callee, time);
      AddKeepsIdsIff(c, id, caller, callee, time);
      AddKeepsShape(c.table, id, caller, callee, time);
    case Offer(i, addr, port) =>
      OfferKeepsCoherence(c, i, addr, port);
      AddFlowOk(c.table[i], addr, port);
      UpdateKeepsKeys(c.table, i, AddFlow(c.table[i], addr, port));
      SameCallsSameIds(c, CachedOffer(c, i, addr, port));
    case Bye(i) =>
      ByeKeepsCoherence(c, i);
      UpdateKeepsKeys(c.table, i, c.table[i].(hadBye := true));
      SameCallsSameIds(c, CachedBye(c, i));
    case Media(addr, port, ssrc) =>
      LookupKeepsCoherence(c, addr, port, ssrc);
      LookupAgrees(c, addr, port, ssrc);
      LookupKeepsIds(c, addr, port, ssrc);
    case Find(id) =>
  }

  ghost predicate AllClean(t: Table, ops: seq<Op>)
    decreases |ops|
  {
    ops == [] || (Clean(t, ops[0]) && AllClean(ScanTable(t, ops[0]), ops[1..]))
  }

  function ScanAnswers(t: Table, ops: seq<Op>): seq<Answer>
    decreases |ops|
  {
    if ops == [] then [] else [ScanAnswer(t, ops[0])] + ScanAnswers(ScanTable(t, ops[0]), ops[1..])
  }

  ghost function CachedAnswers(c: Cached, ops: seq<Op>): seq<Answer>
    decreases |ops|
  {
    if ops == [] then [] else [CachedAnswer(c, ops[0])] + CachedAnswers(CachedAfter(c, ops[0]), ops[1..])
  }

  /** The tables after the operations. */
  function ScanFinal(t: Table, ops: seq<Op>): Table
    decreases |ops|
  {
    if ops == [] then t else ScanFinal(ScanTable(t, ops[0]), ops[1..])
  }

  ghost function CachedFinal(c: Cached, ops: seq<Op>): Cached
    decreases |ops|
  {
    if ops == [] then c else CachedFinal(CachedAfter(c, ops[0]), ops[1..])
  }

  const NO_CALLS := Cached([], map[], map[])

  lemma {:induction false} CachedRunFrom(c: Cached, ops: seq<Op>)
    requires Agreeing(c) && AllClean(c.table, ops)
    ensures CachedAnswers(c, ops) == ScanAnswers(c.table, ops)
    ensures CachedFinal(c, ops).table == ScanFinal(c.table, ops) && Agreeing(CachedFinal(c, ops))
    decreases |ops|
  {
    if ops != [] {
      OpAgrees(c, ops[0]);
      CachedRunFrom(CachedAfter(c, ops[0]), ops[1..]);
    }
  }

  /** Over any interleaving of additions, registrations, BYEs and lookups that is clean
      at every step, the cached build answers every one like the linear scan, and ends
      with the same table, SSRCs included. */
  lemma CachedRunAgrees(ops: seq<Op>)
    requires AllClean([], ops)
    ensures CachedAnswers(NO_CALLS, ops) == ScanAnswers([], ops)
    ensures CachedFinal(NO_CALLS, ops).table == ScanFinal([], ops)
  {
    CachedRunFrom(NO_CALLS, ops);
  }
}
