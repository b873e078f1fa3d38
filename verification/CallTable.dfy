/** The call table object: the slot vector and the fragment map, updated in place.
    Every method is tied to its specification as a value function; the ghost log
    records the file operations and attributions as they happen. */
module CallTables {
  import opened Text
  import opened Slots
  import opened Machine

  class CallTable {
    var table: Table
    var ipfrags: map<FragKey, Handle>
    var eraseNonT38: bool
    var absoluteTimeout: int
    ghost var log: seq<Event>

    constructor ()
      ensures table == [] && ipfrags == map[] && log == []
      ensures !eraseNonT38 && absoluteTimeout == INT32_MAX
    {
      table, ipfrags, log := [], map[], [];
      eraseNonT38, absoluteTimeout := false, INT32_MAX;
    }

    /** Takes the first unused slot, or appends one, and fills it in place. */
    method Add(callId: string, caller: NameText, callee: NameText, time: int) returns (idx: nat)
      modifies this`table, this`log
      ensures idx == FreeSlot(old(table), 0) && idx < |table| && table[idx].isUsed
      ensures table == AddCall(old(table), callId, caller, callee, time)
      ensures log == old(log) + [Added(idx, time)]
    {
      var i := 0;
      while i < |table| && table[i].isUsed
        invariant 0 <= i <= |table|
        invariant FreeSlot(table, 0) == FreeSlot(table, i)
      {
        i := i + 1;
      }
      idx := i;
      if idx == |table| {
        table := table + [ZERO];
      }
      table := table[idx := table[idx].(isUsed := true, rtpmapEvent := 101, hadT38 := false, hadBye := false)];
      table := table[idx := table[idx].(
        callId := CopyOver(table[idx].callId, callId[..Min(|callId|, CALL_ID_SIZE)]), callIdLen := |callId|)];
      table := table[idx := table[idx].(caller := caller[..PEER_SIZE], callee := callee[..PEER_SIZE])];
      table := table[idx := table[idx].(ipN := 0, file := 0, firstTime := time, lastTime := time)];
      log := log + [Added(idx, time)];
    }

    method FindByCallId(callId: string) returns (idx: int)
      ensures idx == FindCall(table, KeyOf(callId), 0)
    {
      var n := Min(|callId|, CALL_ID_SIZE);
      var i := 0;
      while i < |table|
        invariant 0 <= i <= |table|
        invariant FindCall(table, KeyOf(callId), 0) == FindCall(table, KeyOf(callId), i)
      {
        if table[i].isUsed && table[i].callIdLen == |callId| && table[i].callId[..n] == callId[..n] {
          return i;
        }
        i := i + 1;
      }
      return -1;
    }

    method AddIpPort(ce: nat, addr: Addr, port: Port) returns (rc: int)
      requires ce < |table|
      modifies this`table, this`log
      ensures table == old(table)[ce := AddFlow(old(table[ce]), addr, port)]
      ensures log == old(log) + [Offered(ce, addr, port, Registers(old(table[ce]), addr, port))]
      ensures rc == if old(table[ce].ipN) >= MAX_FLOWS then -1 else 0
    {
      log := log + [Offered(ce, addr, port, Registers(table[ce], addr, port))];
      if table[ce].ipN >= MAX_FLOWS {
        return -1;
      }
      var i := 0;
      while i < table[ce].ipN
        invariant 0 <= i <= table[ce].ipN <= MAX_FLOWS
        invariant FindPair(table[ce], addr, port, 0) == FindPair(table[ce], addr, port, i)
      {
        if table[ce].ip[i] == addr && table[ce].port[i] == port {
          return 0;
        }
        i := i + 1;
      }
      var n := table[ce].ipN;
      table := table[ce := table[ce].(ip := table[ce].ip[n := addr])];
      table := table[ce := table[ce].(port := table[ce].port[n := port])];
      table := table[ce := table[ce].(ipN := n + 1)];
      return 0;
    }

    /** The linear scan over all slots and flows. It does not look at `isUsed`. */
    method FindIpPortSsrc(addr: Addr, port: Port, ssrc: Ssrc) returns (h: Hit)
      modifies this`table, this`log
      ensures h == FindMedia(old(table), addr, port, ssrc, 0)
      ensures table == Attribute(old(table), h, ssrc)
      ensures log == old(log) + if h.Hit? then [Attributed(h.slot, h.flow, ssrc)] else []
    {
      var leg := 0;
      while leg < |table|
        invariant 0 <= leg <= |table|
        invariant table == old(table) && log == old(log)
        invariant FindMedia(table, addr, port, ssrc, 0) == FindMedia(table, addr, port, ssrc, leg)
      {
        var rtp := 0;
        while rtp < Min(MAX_FLOWS, table[leg].ipN)
          invariant 0 <= rtp <= MAX_FLOWS
          invariant table == old(table) && log == old(log)
          invariant FindFlow(table[leg], addr, port, ssrc, 0) == FindFlow(table[leg], addr, port, ssrc, rtp)
        {
          if table[leg].port[rtp] == port && table[leg].ip[rtp] == addr {
            if !table[leg].hadBye || table[leg].ssrc[rtp] == ssrc {
              table := table[leg := table[leg].(ssrc := table[leg].ssrc[rtp := ssrc])];
              log := log + [Attributed(leg, rtp, ssrc)];
              return Hit(leg, rtp);
            }
          }
          rtp := rtp + 1;
        }
        leg := leg + 1;
      }
      return Miss;
    }

    /** Ends the call in a slot if it has expired: closes its file, then deletes or
        announces it, and zeroes the slot. */
    method CleanSlot(idx: nat, now: int, ghost cfg: Config)
      requires eraseNonT38 == cfg.t38Only && absoluteTimeout == cfg.limit
      requires idx < |table|
      modifies this`table, this`log
      ensures table == old(table)[idx := if Expires(old(table[idx]), now, cfg.limit) then ZERO else old(table[idx])]
      ensures log == old(log) + SlotSweepEvents(old(table[idx]), idx, now, cfg)
    {
      var s := table[idx];
      if s.isUsed && (now - s.lastTime > IDLE_LIMIT || now - s.firstTime > absoluteTimeout) {
        if s.file != 0 {
          log := log + [Closed(s.file)];
          if eraseNonT38 && !s.hadT38 {
            log := log + [Unlinked(s.file, s.fileName)];
          } else {
            log := log + [CloseTriggered(s.file, s.fileName)];
          }
        }
        log := log + [Expired(idx)];
        table := table[idx := ZERO];
      }
    }

    /** The sweep over the whole table. */
    method DoCleanup(now: int, ghost cfg: Config)
      requires eraseNonT38 == cfg.t38Only && absoluteTimeout == cfg.limit
      modifies this`table, this`log
      ensures table == Swept(old(table), now, cfg.limit)
      ensures log == old(log) + SweepEvents(old(table), |old(table)|, now, cfg)
    {
      ghost var before := table;
      var idx := 0;
      while idx < |table|
        invariant 0 <= idx <= |table| == |before|
        invariant forall k :: idx <= k < |table| ==> table[k] == before[k]
        invariant forall k :: 0 <= k < idx ==> table[k] == Swept(before, now, cfg.limit)[k]
        invariant log == old(log) + SweepEvents(before, idx, now, cfg)
      {
        CleanSlot(idx, now, cfg);
        idx := idx + 1;
      }
    }

    method AddIpfrag(key: FragKey, f: Handle)
      modifies this`ipfrags
      ensures ipfrags == old(ipfrags)[key := f]
    {
      ipfrags := ipfrags[key := f];
    }

    method DeleteIpfrag(key: FragKey)
      modifies this`ipfrags
      ensures ipfrags == old(ipfrags) - {key}
    {
      ipfrags := ipfrags - {key};
    }

    /** Reading an absent key inserts a null entry. */
    method GetIpfrag(key: FragKey) returns (f: Handle)
      modifies this`ipfrags
      ensures f == Lookup(old(ipfrags), key)
      ensures ipfrags == old(ipfrags)[key := f]
    {
      if key !in ipfrags {
        ipfrags := ipfrags[key := 0];
      }
      f := ipfrags[key];
    }
  }
}
