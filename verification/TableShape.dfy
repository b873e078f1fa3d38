/** What every reachable call table looks like: unused slots are all zero, no two
    used slots hold the same call, tracked pairs are distinct. From this follow
    the table's refinement of a map of calls and the soundness of its scans. */
module TableShape {
  import opened Slots
  import opened Machine

  // ---- the shape of one slot ----

  ghost predicate DistinctFlows(s: Slot) {
    forall j: nat, k: nat :: j < k < s.ipN && k < MAX_FLOWS ==> s.ip[j] != s.ip[k] || s.port[j] != s.port[k]
  }

  ghost predicate SlotOk(s: Slot) {
    && (!s.isUsed ==> s == ZERO)
    && s.ipN <= MAX_FLOWS
    && DistinctFlows(s)
  }

  lemma AddFlowOk(s: Slot, addr: Addr, port: Port)
    requires SlotOk(s) && s.isUsed
    ensures SlotOk(AddFlow(s, addr, port)) && AddFlow(s, addr, port).isUsed
    ensures SlotKey(AddFlow(s, addr, port)) == SlotKey(s)
  {
    assert FindPair(s, addr, port, 0) < 0 ==> forall j: nat :: !Tracks(s, j, addr, port);
  }

  lemma FillOk(s: Slot, id: string, caller: NameText, callee: NameText, time: int)
    ensures var r := Fill(s, id, caller, callee, time);
            SlotOk(r) && r.isUsed && SlotKey(r) == KeyOf(id)
  {
  }

  // ---- the whole table ----

  ghost predicate TableOk(t: Table) {
    forall i :: 0 <= i < |t| ==> SlotOk(t[i])
  }

  ghost predicate UniqueKeys(t: Table) {
    forall i, j :: 0 <= i < j < |t| && t[i].isUsed && t[j].isUsed ==> SlotKey(t[i]) != SlotKey(t[j])
  }

  /** A slot update that leaves the call in place. */
  ghost predicate SameCall(a: Slot, b: Slot) {
    a.isUsed == b.isUsed && SlotKey(a) == SlotKey(b)
  }

  lemma UpdateKeepsShape(t: Table, i: nat, s: Slot)
    requires TableOk(t) && UniqueKeys(t) && i < |t|
    requires SlotOk(s) && SameCall(s, t[i])
    ensures TableOk(t[i := s]) && UniqueKeys(t[i := s])
  {
  }

  lemma AddKeepsShape(t: Table, id: string, caller: NameText, callee: NameText, time: int)
    requires TableOk(t) && UniqueKeys(t) && FindCall(t, KeyOf(id), 0) < 0
    ensures var r := AddCall(t, id, caller, callee, time);
            TableOk(r) && UniqueKeys(r)
  {
    var idx := FreeSlot(t, 0);
    var grown := if idx == |t| then t + [ZERO] else t;
    FillOk(grown[idx], id, caller, callee, time);
  }

  ghost predicate Shaped(s: State) { TableOk(s.table) && UniqueKeys(s.table) }

  lemma ShapeKept(cfg: Config, s: State, a: Action)
    requires Shaped(s)
    ensures Shaped(Apply(cfg, s, a))
  {
    if Enabled(s, a) {
      match a
      case Sweep(now) =>
      case MediaIn(addr, port, ssrc, _, _) =>
        var h := FindMedia(s.table, addr, port, ssrc, 0);
        MediaKeepsShape(cfg, s, h, ssrc, a.time, a.secondByte);
      case NewCall(id, caller, callee, time, _, name, openWorks) =>
        AddKeepsShape(s.table, id, caller, callee, time);
        var s1 := AddedCall(s, id, caller, callee, time);
        OpenKeepsShape(cfg, s1, FreeSlot(s.table, 0), name, openWorks);
      case Bye(i) => UpdateKeepsShape(s.table, i, s.table[i].(hadBye := true));
      case Offer(i, addr, port) =>
        AddFlowOk(s.table[i], addr, port);
        UpdateKeepsShape(s.table, i, AddFlow(s.table[i], addr, port));
      case SetEvent(i, event) => UpdateKeepsShape(s.table, i, s.table[i].(rtpmapEvent := event));
      case SetT38(i) => UpdateKeepsShape(s.table, i, s.table[i].(hadT38 := true));
      case _ =>
    }
  }

  lemma MediaKeepsShape(cfg: Config, s: State, h: Hit, ssrc: Ssrc, time: int, secondByte: int)
    requires Shaped(s) && h.Hit? && h.slot < |s.table| && h.flow < MAX_FLOWS && s.table[h.slot].isUsed
    ensures Shaped(ApplyMedia(cfg, s, h, ssrc, time, secondByte))
  {
    var t := Attribute(s.table, h, ssrc);
    UpdateKeepsShape(s.table, h.slot, t[h.slot]);
    UpdateKeepsShape(t, h.slot, t[h.slot].(lastTime := time, packets := t[h.slot].packets + 1));
  }

  lemma OpenKeepsShape(cfg: Config, s: State, idx: nat, name: string, openWorks: bool)
    requires Shaped(s) && idx < |s.table| && s.table[idx].isUsed
    ensures Shaped(SampledCall(cfg, s, idx, name, openWorks))
  {
    var file := if openWorks then s.nextFile else 0;
    UpdateKeepsShape(s.table, idx, s.table[idx].(file := file, fileName := CutName(name)));
  }

  // ---- scans only find live slots ----

  /** The media scan never looks at `isUsed`, yet on a well-shaped table it only
      returns used slots, and always the lexicographically first eligible flow. */
  lemma ScanFindsLiveSlots(t: Table, addr: Addr, port: Port, ssrc: Ssrc)
    requires TableOk(t)
    ensures var h := FindMedia(t, addr, port, ssrc, 0);
            && (h.Hit? ==> h.slot < |t| && t[h.slot].isUsed && EligibleAt(t, h.slot, h.flow, addr, port, ssrc))
            && (forall i: nat, k: nat :: EligibleAt(t, i, k, addr, port, ssrc) ==>
                  t[i].isUsed && h.Hit? && (h.slot < i || (h.slot == i && h.flow <= k)))
  {
    assert forall i: nat, k: nat :: EligibleAt(t, i, k, addr, port, ssrc) ==> t[i] != ZERO;
  }

  /** A call added to a recycled slot is in the state of one added to a fresh slot. */
  lemma RecycledLikeFresh(t: Table, id: string, caller: NameText, callee: NameText, time: int)
    requires TableOk(t)
    ensures var idx := FreeSlot(t, 0);
            AddCall(t, id, caller, callee, time)[idx] == Fill(ZERO, id, caller, callee, time)
  {
  }

  // ---- the table as a map of calls ----

  /** Two Call-IDs with the same first 32 bytes are one call if and only if they have
      the same length. */
  lemma PrefixCollidesIff(a: string, b: string)
    ensures |a| >= 32 && |b| >= 32 && a[..32] == b[..32] ==>
              (KeyOf(a) == KeyOf(b) <==> |a| == |b|)
  {
  }

  /** The used slots, by the key of the call they hold. */
  ghost function Calls(t: Table): map<CallKey, int> {
    map key | key in (set i | 0 <= i < |t| && t[i].isUsed :: SlotKey(t[i])) :: FindCall(t, key, 0)
  }

  /** Finding by Call-ID is looking up that map. */
  lemma FindIsLookup(t: Table, key: CallKey)
    requires UniqueKeys(t)
    ensures FindCall(t, key, 0) == if key in Calls(t) then Calls(t)[key] else -1
    ensures forall i :: 0 <= i < |t| && t[i].isUsed && SlotKey(t[i]) == key ==> key in Calls(t) && Calls(t)[key] == i
  {
    var r := FindCall(t, key, 0);
    if r >= 0 {
      assert SlotKey(t[r]) == key;
    }
  }

  lemma LookupOne(t: Table, key: CallKey)
    requires UniqueKeys(t)
    ensures key in Calls(t) <==> FindCall(t, key, 0) >= 0
    ensures key in Calls(t) ==> Calls(t)[key] == FindCall(t, key, 0)
  {
    FindIsLookup(t, key);
  }

  /** Two tables with the same calls in the same slots are the same map. */
  lemma SameCalls(t: Table, r: Table)
    requires UniqueKeys(t) && UniqueKeys(r) && |t| == |r|
    requires forall i :: 0 <= i < |t| ==> SameCall(r[i], t[i])
    ensures Calls(r) == Calls(t)
  {
    forall key
      ensures FindCall(t, key, 0) == FindCall(r, key, 0)
      ensures key in Calls(r) <==> key in Calls(t)
    {
      FindIsLookup(t, key);
      FindIsLookup(r, key);
    }
  }

  /** What a lookup finds after a call was added. */
  lemma FindAfterAdd(t: Table, id: string, caller: NameText, callee: NameText, time: int, key: CallKey)
    requires TableOk(t) && UniqueKeys(t) && FindCall(t, KeyOf(id), 0) < 0
    ensures FindCall(AddCall(t, id, caller, callee, time), key, 0) ==
            if key == KeyOf(id) then FreeSlot(t, 0) else FindCall(t, key, 0)
  {
    var idx := FreeSlot(t, 0);
    var r := AddCall(t, id, caller, callee, time);
    var grown := if idx == |t| then t + [ZERO] else t;
    FillOk(grown[idx], id, caller, callee, time);
    AddKeepsShape(t, id, caller, callee, time);
    assert r[idx].isUsed && SlotKey(r[idx]) == KeyOf(id);
    assert forall i :: 0 <= i < |t| && i != idx ==> r[i] == t[i];
    var i, j := FindCall(t, key, 0), FindCall(r, key, 0);
    assert i >= 0 ==> r[i] == t[i];
    assert j >= 0 && key != KeyOf(id) ==> r[j] == t[j];
  }

  /** Adding an absent call adds its key, at the first free slot, and nothing else. */
  lemma AddIsInsert(t: Table, id: string, caller: NameText, callee: NameText, time: int)
    requires TableOk(t) && UniqueKeys(t) && FindCall(t, KeyOf(id), 0) < 0
    ensures Calls(AddCall(t, id, caller, callee, time)) == Calls(t)[KeyOf(id) := FreeSlot(t, 0)]
  {
    var r := AddCall(t, id, caller, callee, time);
    AddKeepsShape(t, id, caller, callee, time);
    forall key
      ensures key in Calls(r) <==> key in Calls(t) || key == KeyOf(id)
      ensures key in Calls(r) ==> Calls(r)[key] == if key == KeyOf(id) then FreeSlot(t, 0) else Calls(t)[key]
    {
      LookupOne(t, key);
      LookupOne(r, key);
      FindAfterAdd(t, id, caller, callee, time, key);
    }
  }

  /** The sweep removes exactly the expired calls. */
  lemma SweepIsFilter(t: Table, now: int, limit: int)
    requires UniqueKeys(t)
    ensures forall key :: key in Calls(t) ==> 0 <= Calls(t)[key] < |t|
    ensures Calls(Swept(t, now, limit)) ==
            map key | key in Calls(t) && !Expires(t[Calls(t)[key]], now, limit) :: Calls(t)[key]
  {
    var r := Swept(t, now, limit);
    forall key
      ensures key in Calls(t) ==> 0 <= Calls(t)[key] < |t|
      ensures key in Calls(r) <==> key in Calls(t) && !Expires(t[Calls(t)[key]], now, limit)
      ensures key in Calls(r) ==> Calls(r)[key] == Calls(t)[key]
    {
      FindIsLookup(t, key);
      FindIsLookup(r, key);
    }
  }

  lemma NewCallOnCalls(cfg: Config, s: State, a: Action)
    requires Shaped(s) && a.NewCall? && Enabled(s, a)
    ensures Calls(Apply(cfg, s, a).table) == Calls(s.table)[KeyOf(a.id) := FreeSlot(s.table, 0)]
  {
    var t := AddCall(s.table, a.id, a.caller, a.callee, a.time);
    AddIsInsert(s.table, a.id, a.caller, a.callee, a.time);
    AddKeepsShape(s.table, a.id, a.caller, a.callee, a.time);
    ShapeKept(cfg, s, a);
    SameCalls(t, Apply(cfg, s, a).table);
  }

  /** Which actions change the map of calls, and how. */
  lemma ActionOnCalls(cfg: Config, s: State, a: Action)
    requires Shaped(s)
    ensures a.NewCall? && Enabled(s, a) ==>
              Calls(Apply(cfg, s, a).table) == Calls(s.table)[KeyOf(a.id) := FreeSlot(s.table, 0)]
    ensures a.Sweep? ==>
              (forall key :: key in Calls(s.table) ==> 0 <= Calls(s.table)[key] < |s.table|)
              && Calls(Apply(cfg, s, a).table) ==
                 map key | key in Calls(s.table) && !Expires(s.table[Calls(s.table)[key]], a.now, cfg.limit)
                   :: Calls(s.table)[key]
    ensures !a.NewCall? && !a.Sweep? ==> Calls(Apply(cfg, s, a).table) == Calls(s.table)
  {
    var r := Apply(cfg, s, a);
    ShapeKept(cfg, s, a);
    if a.Sweep? {
      SweepIsFilter(s.table, a.now, cfg.limit);
    } else if a.NewCall? && Enabled(s, a) {
      NewCallOnCalls(cfg, s, a);
    } else if !a.NewCall? {
      SlotsKeepCalls(cfg, s, a);
      SameCalls(s.table, r.table);
    }
  }

  lemma SlotsKeepCalls(cfg: Config, s: State, a: Action)
    requires Shaped(s) && !a.NewCall? && !a.Sweep?
    ensures |Apply(cfg, s, a).table| == |s.table|
    ensures forall i :: 0 <= i < |s.table| ==> SameCall(Apply(cfg, s, a).table[i], s.table[i])
  {
  }
}
