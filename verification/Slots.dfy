/** The call table's records and its scans, as values: what one slot holds, which
    slot or flow a lookup finds, and what adding, tracking and sweeping do. */
module Slots {
  import opened Text

  const MAX_FLOWS := 4
  const CALL_ID_SIZE := 32
  const PEER_SIZE := 16
  const IDLE_LIMIT := 300
  const NAME_LIMIT := 127

  type Addr = x: int | 0 <= x < 0x1_0000_0000
  type Port = x: int | 0 <= x < 0x1_0000
  type Ssrc = x: int | 0 <= x < 0x1_0000_0000

  /** A dump file; 0 is the NULL pointer. */
  type Handle = nat

  datatype SlotFields = SlotFields(
    isUsed: bool, hadBye: bool, hadT38: bool, rtpmapEvent: nat,
    caller: string, callee: string, callId: string, callIdLen: nat,
    ip: seq<Addr>, port: seq<Port>, ssrc: seq<Ssrc>, ipN: nat,
    firstTime: int, lastTime: int, packets: nat, file: Handle, fileName: string)

  /** `strlcpy` into the slot's 128-byte name field. */
  function CutName(name: string): string { name[..Min(|name|, NAME_LIMIT)] }

  /** A record of the table, with its fixed-size arrays. */
  type Slot = s: SlotFields |
    && |s.ip| == MAX_FLOWS && |s.port| == MAX_FLOWS && |s.ssrc| == MAX_FLOWS
    && |s.callId| == CALL_ID_SIZE
    witness ZERO_FIELDS

  const ZERO_FIELDS := SlotFields(false, false, false, 0,
                                  Nuls(PEER_SIZE), Nuls(PEER_SIZE), Nuls(CALL_ID_SIZE), 0,
                                  [0, 0, 0, 0], [0, 0, 0, 0], [0, 0, 0, 0], 0,
                                  0, 0, 0, 0, "")

  /** The slot after `memset` to zero. */
  const ZERO: Slot := ZERO_FIELDS

  type Table = seq<Slot>

  // ---- calls ----

  /** What the table remembers of a Call-ID: its length and first 32 bytes. */
  datatype CallKey = CallKey(len: nat, head: string)

  function KeyOf(id: string): CallKey { CallKey(|id|, id[..Min(|id|, CALL_ID_SIZE)]) }

  function SlotKey(s: Slot): CallKey { CallKey(s.callIdLen, s.callId[..Min(s.callIdLen, CALL_ID_SIZE)]) }

  /** The first used slot at or after `i` that holds the call, or -1. */
  function FindCall(t: Table, key: CallKey, i: nat): (r: int)
    ensures r == -1 || i <= r < |t|
    ensures r >= 0 ==> t[r].isUsed && SlotKey(t[r]) == key
    ensures forall j :: i <= j < (if r < 0 then |t| else r) ==> !(t[j].isUsed && SlotKey(t[j]) == key)
    decreases |t| - i
  {
    if i >= |t| then -1
    else if t[i].isUsed && SlotKey(t[i]) == key then i
    else FindCall(t, key, i + 1)
  }

  /** The first unused slot at or after `i`, or the table's length. */
  function FreeSlot(t: Table, i: nat): (r: nat)
    requires i <= |t|
    ensures i <= r <= |t|
    ensures r < |t| ==> !t[r].isUsed
    ensures forall j :: i <= j < r ==> t[j].isUsed
    decreases |t| - i
  {
    if i == |t| || !t[i].isUsed then i else FreeSlot(t, i + 1)
  }

  /** `memcpy` over the head of a fixed-size array. */
  function CopyOver(old_: string, new_: string): (r: string)
    requires |new_| <= |old_|
    ensures |r| == |old_| && r[..|new_|] == new_
  {
    new_ + old_[|new_|..]
  }

  /** The fields that adding a call writes; all others keep what the slot held. */
  function Fill(s: Slot, id: string, caller: string, callee: string, time: int): Slot
    requires |caller| >= PEER_SIZE && |callee| >= PEER_SIZE
  {
    s.(isUsed := true, rtpmapEvent := 101, hadT38 := false, hadBye := false,
       callId := CopyOver(s.callId, id[..Min(|id|, CALL_ID_SIZE)]), callIdLen := |id|,
       caller := caller[..PEER_SIZE], callee := callee[..PEER_SIZE],
       ipN := 0, file := 0, firstTime := time, lastTime := time)
  }

  /** Adding a call: the first unused slot, or a fresh one at the end. */
  function AddCall(t: Table, id: string, caller: string, callee: string, time: int): Table
    requires |caller| >= PEER_SIZE && |callee| >= PEER_SIZE
  {
    var idx := FreeSlot(t, 0);
    var grown := if idx == |t| then t + [ZERO] else t;
    grown[idx := Fill(grown[idx], id, caller, callee, time)]
  }

  // ---- media flows ----

  /** Flow `k` of the slot is the tracked pair (addr, port). */
  predicate Tracks(s: Slot, k: nat, addr: Addr, port: Port) {
    k < MAX_FLOWS && k < s.ipN && s.ip[k] == addr && s.port[k] == port
  }

  /** The first flow at or after `k` that is the pair, or -1. */
  function FindPair(s: Slot, addr: Addr, port: Port, k: nat): (r: int)
    ensures r == -1 || k <= r < MAX_FLOWS
    ensures r >= 0 ==> Tracks(s, r, addr, port)
    ensures forall j: nat :: k <= j && (r < 0 || j < r) ==> !Tracks(s, j, addr, port)
    decreases MAX_FLOWS - k
  {
    if k >= MAX_FLOWS || k >= s.ipN then -1
    else if Tracks(s, k, addr, port) then k
    else FindPair(s, addr, port, k + 1)
  }

  /** Whether a pair offered to the call becomes a new flow of it. */
  predicate Registers(s: Slot, addr: Addr, port: Port) {
    s.ipN < MAX_FLOWS && FindPair(s, addr, port, 0) < 0
  }

  /** Tracking a further pair: nothing happens when four are tracked or it is known. */
  function AddFlow(s: Slot, addr: Addr, port: Port): Slot {
    if s.ipN >= MAX_FLOWS || FindPair(s, addr, port, 0) >= 0 then s
    else s.(ip := s.ip[s.ipN := addr], port := s.port[s.ipN := port], ipN := s.ipN + 1)
  }

  /** A live call takes any SSRC on a tracked pair, an ended one only its own. */
  predicate Eligible(s: Slot, k: nat, addr: Addr, port: Port, ssrc: Ssrc) {
    Tracks(s, k, addr, port) && (!s.hadBye || s.ssrc[k] == ssrc)
  }

  function FindFlow(s: Slot, addr: Addr, port: Port, ssrc: Ssrc, k: nat): (r: int)
    ensures r == -1 || k <= r < MAX_FLOWS
    ensures r >= 0 ==> Eligible(s, r, addr, port, ssrc)
    ensures forall j: nat :: k <= j && (r < 0 || j < r) ==> !Eligible(s, j, addr, port, ssrc)
    decreases MAX_FLOWS - k
  {
    if k >= MAX_FLOWS || k >= s.ipN then -1
    else if Eligible(s, k, addr, port, ssrc) then k
    else FindFlow(s, addr, port, ssrc, k + 1)
  }

  datatype Hit = Miss | Hit(slot: nat, flow: nat)

  /** Slot `i`'s flow `k` is eligible. */
  predicate EligibleAt(t: Table, i: nat, k: nat, addr: Addr, port: Port, ssrc: Ssrc) {
    i < |t| && Eligible(t[i], k, addr, port, ssrc)
  }

  /** The lexicographically first eligible (slot, flow) from slot `i` on. */
  function FindMedia(t: Table, addr: Addr, port: Port, ssrc: Ssrc, i: nat): (h: Hit)
    ensures h.Hit? ==> i <= h.slot < |t| && EligibleAt(t, h.slot, h.flow, addr, port, ssrc)
    ensures h.Hit? ==> forall k: nat :: k < h.flow ==> !EligibleAt(t, h.slot, k, addr, port, ssrc)
    ensures forall j: nat, k: nat :: i <= j && (h.Miss? || j < h.slot) ==> !EligibleAt(t, j, k, addr, port, ssrc)
    decreases |t| - i
  {
    if i >= |t| then Miss
    else
      var k := FindFlow(t[i], addr, port, ssrc, 0);
      if k >= 0 then Hit(i, k) else FindMedia(t, addr, port, ssrc, i + 1)
  }

  /** The slot after the lookup's write to its `ssrc` cell. */
  function Attribute(t: Table, h: Hit, ssrc: Ssrc): Table
    requires h.Hit? ==> h.slot < |t| && h.flow < MAX_FLOWS
  {
    if h.Miss? then t else t[h.slot := t[h.slot].(ssrc := t[h.slot].ssrc[h.flow := ssrc])]
  }

  // ---- expiry ----

  predicate Expires(s: Slot, now: int, limit: int) {
    s.isUsed && (now - s.lastTime > IDLE_LIMIT || now - s.firstTime > limit)
  }

  function Swept(t: Table, now: int, limit: int): (r: Table)
    ensures |r| == |t|
    ensures forall i :: 0 <= i < |t| ==> r[i] == if Expires(t[i], now, limit) then ZERO else t[i]
  {
    seq(|t|, i requires 0 <= i < |t| => if Expires(t[i], now, limit) then ZERO else t[i])
  }
}
