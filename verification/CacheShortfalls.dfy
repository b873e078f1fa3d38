/** Runs of the cached build, from the empty table on, whose answers are not the scan's. */
module CacheShortfalls {
  import opened Slots
  import opened Machine
  import opened FlowTracking
  import opened TableShape
  import opened CachedTables
  import opened CacheAgreement

  // ---- runs, one operation at a time ----

  lemma {:induction false} CachedOneMore(c: Cached, ops: seq<Op>, op: Op)
    ensures CachedFinal(c, ops + [op]) == CachedAfter(CachedFinal(c, ops), op)
    decreases |ops|
  {
    if ops == [] {
      assert ops + [op] == [op] && [op][1..] == [];
    } else {
      assert (ops + [op])[1..] == ops[1..] + [op];
      CachedOneMore(CachedAfter(c, ops[0]), ops[1..], op);
    }
  }

  lemma {:induction false} ScanOneMore(t: Table, ops: seq<Op>, op: Op)
    ensures ScanFinal(t, ops + [op]) == ScanTable(ScanFinal(t, ops), op)
    decreases |ops|
  {
    if ops == [] {
      assert ops + [op] == [op] && [op][1..] == [];
    } else {
      assert (ops + [op])[1..] == ops[1..] + [op];
      ScanOneMore(ScanTable(t, ops[0]), ops[1..], op);
    }
  }

  /** The cached run and the scan's run are still in step. */
  ghost predicate InStep(ops: seq<Op>) {
    Agreeing(CachedFinal(NO_CALLS, ops)) && CachedFinal(NO_CALLS, ops).table == ScanFinal([], ops)
  }

  lemma CleanKeepsStep(ops: seq<Op>, op: Op)
    requires InStep(ops) && Clean(ScanFinal([], ops), op)
    ensures InStep(ops + [op]) && ScanFinal([], ops + [op]) == ScanTable(ScanFinal([], ops), op)
  {
    CachedOneMore(NO_CALLS, ops, op);
    ScanOneMore([], ops, op);
    OpAgrees(CachedFinal(NO_CALLS, ops), op);
  }

  // ---- one call with one flow ----

  datatype Call = Call(id: string, caller: NameText, callee: NameText, time: int)

  function AddOf(x: Call): Op { Op.Add(x.id, x.caller, x.callee, x.time) }

  function Tracked(x: Call, addr: Addr, port: Port): seq<Op> { [AddOf(x)] + [Op.Offer(0, addr, port)] }

  function Ended(x: Call, addr: Addr, port: Port, ssrc: Ssrc): seq<Op> {
    Tracked(x, addr, port) + [Op.Media(addr, port, ssrc)] + [Op.Bye(0)]
  }

  lemma AddedAlone(x: Call)
    requires |x.id| <= CALL_ID_SIZE
    ensures InStep([AddOf(x)]) && ScanFinal([], [AddOf(x)]) == [Fill(ZERO, x.id, x.caller, x.callee, x.time)]
  {
    assert [] + [AddOf(x)] == [AddOf(x)];
    CleanKeepsStep([], AddOf(x));
  }

  lemma TrackedAlone(x: Call, addr: Addr, port: Port)
    requires |x.id| <= CALL_ID_SIZE
    ensures InStep(Tracked(x, addr, port))
    ensures var t := ScanFinal([], Tracked(x, addr, port));
            && |t| == 1 && TrackedAt(t, 0, 0, addr, port) && !t[0].hadBye && t[0].isUsed && t[0].ipN == 1
            && SlotKey(t[0]) == KeyOf(x.id) && t[0].lastTime == x.time
  {
    AddedAlone(x);
    var t := ScanFinal([], [AddOf(x)]);
    FillOk(ZERO, x.id, x.caller, x.callee, x.time);
    CleanKeepsStep([AddOf(x)], Op.Offer(0, addr, port));
    AddFlowOk(t[0], addr, port);
  }

  lemma EndedAlone(x: Call, addr: Addr, port: Port, ssrc: Ssrc)
    requires |x.id| <= CALL_ID_SIZE
    ensures InStep(Ended(x, addr, port, ssrc))
    ensures var t := ScanFinal([], Ended(x, addr, port, ssrc));
            |t| == 1 && TrackedAt(t, 0, 0, addr, port) && t[0].hadBye && t[0].ssrc[0] == ssrc
  {
    var ops := Tracked(x, addr, port);
    TrackedAlone(x, addr, port);
    ScanOfTracked(ScanFinal([], ops), addr, port, ssrc, 0, 0);
    CleanKeepsStep(ops, Op.Media(addr, port, ssrc));
    CleanKeepsStep(ops + [Op.Media(addr, port, ssrc)], Op.Bye(0));
  }

  // ---- the three ways out of step ----

  /** A call with media of one SSRC, its BYE, a packet of another SSRC, and a packet of
      the first one again: the cache misses it, the scan finds it. */
  lemma NewSsrcAfterByeLosesFlow(x: Call, addr: Addr, port: Port, own: Ssrc, other: Ssrc)
    requires |x.id| <= CALL_ID_SIZE && own != other
    ensures var ops := Ended(x, addr, port, own) + [Op.Media(addr, port, other)];
            && CachedAnswer(CachedFinal(NO_CALLS, ops), Op.Media(addr, port, own)) == Flow(Miss)
            && ScanAnswer(ScanFinal([], ops), Op.Media(addr, port, own)) == Flow(Hit(0, 0))
  {
    var ops := Ended(x, addr, port, own);
    EndedAlone(x, addr, port, own);
    var c := CachedFinal(NO_CALLS, ops);
    CachedOneMore(NO_CALLS, ops, Op.Media(addr, port, other));
    ScanOneMore([], ops, Op.Media(addr, port, other));
    CoherentInTable(c);
    NewSsrcLeavesNegative(c, addr, port, other, 0, 0);
    ScanOfTracked(c.table, addr, port, other, 0, 0);
    ScanOfTracked(c.table, addr, port, own, 0, 0);
  }

  /** A call that has expired: the cache still finds its flow, in a dead slot, and still
      finds its Call-ID. */
  lemma SweepLeavesEntries(x: Call, addr: Addr, port: Port, ssrc: Ssrc, now: int, limit: int)
    requires 0 < |x.id| <= CALL_ID_SIZE && now - x.time > IDLE_LIMIT
    ensures var c := CachedSweep(CachedFinal(NO_CALLS, Tracked(x, addr, port)), now, limit);
            && c.table == [ZERO]
            && CachedAnswer(c, Op.Media(addr, port, ssrc)) == Flow(Hit(0, 0))
            && ScanAnswer(c.table, Op.Media(addr, port, ssrc)) == Flow(Miss)
            && CachedAnswer(c, Find(x.id)) == Slot(0) && ScanAnswer(c.table, Find(x.id)) == Slot(-1)
  {
    TrackedAlone(x, addr, port);
    var c := CachedFinal(NO_CALLS, Tracked(x, addr, port));
    var pair: Pair := (addr, port);
    assert EntryOk(c.table, pair, c.flows[pair]);
    assert CachedFind(c, x.id) == FindCall(c.table, KeyOf(x.id), 0) == 0;
    CoherentInTable(c);
  }

  /** A Call-ID longer than 32 bytes: another one of its length and beginning is the
      same call to the scan, and unknown to the cache. */
  lemma LongIdsDiffer(x: Call) returns (other: string)
    requires |x.id| > CALL_ID_SIZE
    ensures other != x.id
    ensures CachedAnswer(CachedFinal(NO_CALLS, [AddOf(x)]), Find(other)) == Slot(-1)
    ensures ScanAnswer(ScanFinal([], [AddOf(x)]), Find(other)) == Slot(0)
  {
    other := LongIdsCollide(x.id);
    assert [] + [AddOf(x)] == [AddOf(x)];
    CachedOneMore(NO_CALLS, [], AddOf(x));
    ScanOneMore([], [], AddOf(x));
    FillOk(ZERO, x.id, x.caller, x.callee, x.time);
  }
}
