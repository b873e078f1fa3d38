/** The build with lookup caches: the same table, an index from (address, port) to a
    flow with its SSRC, which also remembers failed lookups, and an index from
    Call-ID to slot. Cached pointers are modelled as slot indices. */
module CachedTables {
  import opened Text
  import opened Slots
  import opened Machine
  import opened FlowTracking

  /** A cached flow and the SSRC last seen on it; `Miss` is the null pointer. */
  datatype Entry = Entry(hit: Hit, ssrc: Ssrc)

  datatype Cached = Cached(table: Table, flows: map<Pair, Entry>, ids: map<string, nat>)

  datatype Found = Found(hit: Hit, after: Cached)

  // ---- the operations as values ----

  function CachedAdd(c: Cached, id: string, caller: NameText, callee: NameText, time: int): Cached {
    c.(table := AddCall(c.table, id, caller, callee, time), ids := c.ids[id := FreeSlot(c.table, 0)])
  }

  function CachedFind(c: Cached, id: string): int {
    if id in c.ids then c.ids[id] else -1
  }

  function CachedOffer(c: Cached, i: nat, addr: Addr, port: Port): Cached
    requires i < |c.table|
  {
    c.(table := c.table[i := AddFlow(c.table[i], addr, port)],
       flows := if Registers(c.table[i], addr, port)
                then c.flows[(addr, port) := Entry(Hit(i, c.table[i].ipN), 0)] else c.flows)
  }

  /** The full scan, which caches its result, found or not. */
  function FullSearch(c: Cached, addr: Addr, port: Port, ssrc: Ssrc): Found {
    var h := FindMedia(c.table, addr, port, ssrc, 0);
    Found(h, c.(table := Attribute(c.table, h, ssrc),
                flows := c.flows[(addr, port) := Entry(h, if h.Hit? then ssrc else 0)]))
  }

  /** Cached slots exist. */
  ghost predicate InTable(c: Cached) {
    forall x :: x in c.flows && c.flows[x].hit.Hit? ==>
      c.flows[x].hit.slot < |c.table| && c.flows[x].hit.flow < MAX_FLOWS
  }

  function CachedLookup(c: Cached, addr: Addr, port: Port, ssrc: Ssrc): Found
    requires InTable(c)
  {
    if (addr, port) !in c.flows then FullSearch(c, addr, port, ssrc)
    else
      var e := c.flows[(addr, port)];
      if e.hit.Miss? then Found(Miss, c)
      else if ssrc == e.ssrc then Found(e.hit, c)
      else if c.table[e.hit.slot].hadBye then
        FullSearch(c.(flows := c.flows - {(addr, port)}), addr, port, ssrc)
      else
        Found(e.hit, c.(table := Attribute(c.table, e.hit, ssrc), flows := c.flows[(addr, port) := Entry(e.hit, ssrc)]))
  }

  /** The sweep zeroes a slot before it erases the slot's index entries, and so finds
      no flow to erase, and the empty Call-ID. */
  function CachedSweep(c: Cached, now: int, limit: int): Cached {
    c.(table := Swept(c.table, now, limit),
       ids := if exists i :: 0 <= i < |c.table| && Expires(c.table[i], now, limit) then c.ids - {""} else c.ids)
  }

  /** The first `n` pairs of a slot. */
  function FlowKeys(s: Slot, n: nat): set<Pair>
    requires n <= MAX_FLOWS
  {
    set k | 0 <= k < n :: (s.ip[k], s.port[k])
  }

  // ---- the object ----

  class CachedCallTable {
    var table: Table
    var cache: map<Pair, Entry>
    var callIdCache: map<string, nat>
    var absoluteTimeout: int

    ghost function Abs(): Cached
      reads this
    {
      Cached(table, cache, callIdCache)
    }

    /** Cached slots exist. */
    ghost predicate Valid()
      reads this
    {
      InTable(Abs())
    }

    constructor ()
      ensures Valid()
      ensures Abs() == Cached([], map[], map[])
    {
      table, cache, callIdCache, absoluteTimeout := [], map[], map[], INT32_MAX;
    }

    method Add(callId: string, caller: NameText, callee: NameText, time: int) returns (idx: nat)
      requires Valid()
      modifies this`table, this`callIdCache
      ensures Valid()
      ensures idx == FreeSlot(old(table), 0)
      ensures Abs() == CachedAdd(old(Abs()), callId, caller, callee, time)
    {
      var i := 0;
      while i < |table| && table[i].isUsed
        invariant 0 <= i <= |table|
        invariant FreeSlot(table, 0) == FreeSlot(table, i)
      {
        i := i + 1;
      }
      idx := i;
      if idx == |table| {
        table := table + [ZERO];
      }
      table := table[idx := Fill(table[idx], callId, caller, callee, time)];
      callIdCache := callIdCache[callId := idx];
    }

    method FindByCallId(callId: string) returns (idx: int)
      ensures idx == CachedFind(Abs(), callId)
    {
      if callId in callIdCache {
        return callIdCache[callId];
      }
      return -1;
    }

    method AddIpPort(ce: nat, addr: Addr, port: Port) returns (rc: int)
      requires ce < |table|
      requires Valid()
      modifies this`table, this`cache
      ensures Valid()
      ensures Abs() == CachedOffer(old(Abs()), ce, addr, port)
    {
      if table[ce].ipN >= MAX_FLOWS {
        return -1;
      }
      var i := 0;
      while i < table[ce].ipN
        invariant 0 <= i <= table[ce].ipN <= MAX_FLOWS
        invariant FindPair(table[ce], addr, port, 0) == FindPair(table[ce], addr, port, i)
      {
        if table[ce].ip[i] == addr && table[ce].port[i] == port {
          return 0;
        }
        i := i + 1;
      }
      var s := table[ce];
      cache := cache[(addr, port) := Entry(Hit(ce, s.ipN), 0)];
      table := table[ce := s.(ip := s.ip[s.ipN := addr], port := s.port[s.ipN := port], ipN := s.ipN + 1)];
      return 0;
    }

    /** The linear scan that ends a lookup the cache could not answer. */
    method Scan(addr: Addr, port: Port, ssrc: Ssrc) returns (h: Hit)
      requires Valid()
      modifies this`table, this`cache
      ensures Valid()
      ensures h == FullSearch(old(Abs()), addr, port, ssrc).hit
      ensures Abs() == FullSearch(old(Abs()), addr, port, ssrc).after
    {
      var leg := 0;
      while leg < |table|
        invariant 0 <= leg <= |table|
        invariant table == old(table) && cache == old(cache)
        invariant FindMedia(table, addr, port, ssrc, 0) == FindMedia(table, addr, port, ssrc, leg)
      {
        var rtp := 0;
        while rtp < Min(MAX_FLOWS, table[leg].ipN)
          invariant 0 <= rtp <= MAX_FLOWS
          invariant FindFlow(table[leg], addr, port, ssrc, 0) == FindFlow(table[leg], addr, port, ssrc, rtp)
        {
          if table[leg].port[rtp] == port && table[leg].ip[rtp] == addr {
            if !table[leg].hadBye || table[leg].ssrc[rtp] == ssrc {
              cache := cache[(addr, port) := Entry(Hit(leg, rtp), ssrc)];
              table := table[leg := table[leg].(ssrc := table[leg].ssrc[rtp := ssrc])];
              return Hit(leg, rtp);
            }
          }
          rtp := rtp + 1;
        }
        leg := leg + 1;
      }
      cache := cache[(addr, port) := Entry(Miss, 0)];
      return Miss;
    }

    method FindIpPortSsrc(addr: Addr, port: Port, ssrc: Ssrc) returns (h: Hit)
      requires Valid()
      modifies this`table, this`cache
      ensures Valid()
      ensures h == CachedLookup(old(Abs()), addr, port, ssrc).hit
      ensures Abs() == CachedLookup(old(Abs()), addr, port, ssrc).after
    {
      var ap := (addr, port);
      if ap in cache {
        var e := cache[ap];
        if e.hit.Miss? {
          return Miss;
        }
        if ssrc == e.ssrc {
          return e.hit;
        }
        var ce := table[e.hit.slot];
        if !ce.hadBye {
          table := table[e.hit.slot := ce.(ssrc := ce.ssrc[e.hit.flow := ssrc])];
          cache := cache[ap := Entry(e.hit, ssrc)];
          return e.hit;
        }
        cache := cache - {ap};
      }
      h := Scan(addr, port, ssrc);
    }

    /** Erases the index entries of the flows that a slot tracks. */
    method EraseFlows(s: Slot)
      requires Valid() && s.ipN <= MAX_FLOWS
      modifies this`cache
      ensures Valid()
      ensures cache == old(cache) - FlowKeys(s, s.ipN)
    {
      var rtp := 0;
      while rtp < s.ipN
        invariant 0 <= rtp <= s.ipN && Valid()
        invariant cache == old(cache) - FlowKeys(s, rtp)
      {
        cache := cache - {(s.ip[rtp], s.port[rtp])};
        rtp := rtp + 1;
      }
    }

    /** The sweep of the cached build: each expired slot is zeroed first, and only then
        asked for the index entries to erase. */
    method DoCleanup(now: int)
      requires Valid()
      modifies this`table, this`cache, this`callIdCache
      ensures Valid()
      ensures Abs() == CachedSweep(old(Abs()), now, absoluteTimeout)
    {
      ghost var before := table;
      var idx := 0;
      while idx < |table|
        invariant 0 <= idx <= |table| == |before| && Valid()
        invariant forall k :: idx <= k < |table| ==> table[k] == before[k]
        invariant forall k :: 0 <= k < idx ==> table[k] == Swept(before, now, absoluteTimeout)[k]
        invariant cache == old(cache)
        invariant callIdCache ==
          if exists i :: 0 <= i < idx && Expires(before[i], now, absoluteTimeout) then old(callIdCache) - {""}
          else old(callIdCache)
      {
        if Expires(table[idx], now, absoluteTimeout) {
          table := table[idx := ZERO];
          EraseFlows(table[idx]);
          callIdCache := callIdCache - {SlotKey(table[idx]).head};
        }
        idx := idx + 1;
      }
    }
  }
}
