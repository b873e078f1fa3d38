/** The packet loop's state and the small actions that change it. The event log is
    the history against which the properties of whole runs are stated. */
module Machine {
  import opened Text
  import opened Slots

  // ---- configuration and input ----

  datatype RtpSave = SaveNone | SaveRtp | SaveRtpRtcp | SaveRtpEvent

  /** The command line. The filters, the SDP address parser and the conversions of
      the time pass are library calls, taken as given functions. */
  datatype Config = Config(
    rtpSave: RtpSave, t38Only: bool, limit: int, skipN: Positive, verbose: bool, template: string,
    numberFilter: string -> bool, methodFilter: string -> bool,
    media: string -> Option<(Addr, Port)>, conv: (int, char) -> string)

  type Positive = n: nat | n >= 1 witness 1

  /** Fragments of one datagram share this key. */
  datatype FragKey = FragKey(saddr: Addr, daddr: Addr, id: Port)

  // ---- state and history ----

  datatype Via = Media | Signalling | Fragment

  datatype Event =
    | Added(slot: nat, time: int)
    | Matched
    | OpenAttempted
    | Opened(file: Handle, name: string)
    | Wrote(via: Via, file: Handle, pos: nat)
    | Closed(file: Handle)
    | Unlinked(file: Handle, name: string)
    | CloseTriggered(file: Handle, name: string)
    | Expired(slot: nat)
    | Recorded(slot: nat, time: int)
    | Attributed(slot: nat, flow: nat, ssrc: Ssrc)
    | Offered(slot: nat, addr: Addr, port: Port, taken: bool)
    | FirstFragment(key: FragKey, file: Handle)
    | LastFragment(key: FragKey)

  datatype State = State(
    table: Table, frags: map<FragKey, Handle>, lastCleanup: int, skip: int,
    nextFile: Handle, pos: nat, log: seq<Event>)

  function Init(): State { State([], map[], 0, 1, 1, 0, []) }

  // ---- actions ----

  datatype Action =
    | Sweep(now: int)
    | MediaIn(addr: Addr, port: Port, ssrc: Ssrc, time: int, secondByte: int)
    | NewCall(id: string, caller: NameText, callee: NameText, time: int, matched: bool, name: string, openWorks: bool)
    | Bye(slot: nat)
    | Offer(slot: nat, addr: Addr, port: Port)
    | SetEvent(slot: nat, event: nat)
    | SetT38(slot: nat)
    | SipWrite(slot: nat)
    | RecordFragment(slot: nat, key: FragKey)
    | FollowFragment(key: FragKey, more: bool)
    | Tick

  type NameText = s: string | |s| >= PEER_SIZE witness Nuls(PEER_SIZE)

  const INT32_MAX := 0x7fff_ffff

  const WORD := 0x1_0000_0000_0000_0000

  /** What the sweep does about one slot. */
  function SlotSweepEvents(s: Slot, i: nat, now: int, cfg: Config): seq<Event> {
    if !Expires(s, now, cfg.limit) then []
    else if s.file == 0 then [Expired(i)]
    else [Closed(s.file), Ending(s, cfg), Expired(i)]
  }

  /** What becomes of a closed file: the slot's copy of its name is deleted or announced. */
  function Ending(s: Slot, cfg: Config): Event {
    if cfg.t38Only && !s.hadT38 then Unlinked(s.file, s.fileName) else CloseTriggered(s.file, s.fileName)
  }

  /** The sweep's events for the first `n` slots. */
  function SweepEvents(t: Table, n: nat, now: int, cfg: Config): seq<Event>
    requires n <= |t|
  {
    if n == 0 then [] else SweepEvents(t, n - 1, now, cfg) + SlotSweepEvents(t[n - 1], n - 1, now, cfg)
  }

  /** The sweep itself. */
  function Cleaned(cfg: Config, s: State, now: int): State {
    s.(table := Swept(s.table, now, cfg.limit), log := s.log + SweepEvents(s.table, |s.table|, now, cfg))
  }

  /** Whether the sweep is due: an unsigned difference, so that a clock that steps
      back makes it due as well. */
  predicate SweepDue(s: State, time: int) { (time - s.lastCleanup) % WORD > 15 }

  /** Whether a media packet found for the slot is recorded. */
  predicate Records(cfg: Config, s: Slot, secondByte: int) {
    s.file != 0 && (cfg.rtpSave != SaveRtpEvent || secondByte == s.rtpmapEvent)
  }

  function ApplyMedia(cfg: Config, s: State, h: Hit, ssrc: Ssrc, time: int, secondByte: int): State
    requires h.Hit? && h.slot < |s.table| && h.flow < MAX_FLOWS
  {
    var t := Attribute(s.table, h, ssrc);
    var slot := t[h.slot];
    var log := s.log + [Attributed(h.slot, h.flow, ssrc)];
    if Records(cfg, slot, secondByte) then
      s.(table := t[h.slot := slot.(lastTime := time, packets := slot.packets + 1)],
         log := log + [Recorded(h.slot, time), Wrote(Media, slot.file, s.pos)])
    else s.(table := t, log := log)
  }

  /** The table's part of a new call. */
  function AddedCall(s: State, id: string, caller: NameText, callee: NameText, time: int): State {
    s.(table := AddCall(s.table, id, caller, callee, time),
       log := s.log + [Added(FreeSlot(s.table, 0), time)])
  }

  /** Opening a dump file for a call: a fresh file, or NULL when that fails. */
  function OpenedCall(s: State, idx: nat, name: string, openWorks: bool): State
    requires idx < |s.table|
  {
    var file := if openWorks then s.nextFile else 0;
    s.(table := s.table[idx := s.table[idx].(file := file, fileName := CutName(name))],
       nextFile := if openWorks then s.nextFile + 1 else s.nextFile,
       log := s.log + if openWorks then [OpenAttempted, Opened(file, name)] else [OpenAttempted])
  }

  /** The loop's part: a new call with a matching method counts against the sampling
      counter, and the one that exhausts it gets a dump file. */
  function SampledCall(cfg: Config, s: State, idx: nat, name: string, openWorks: bool): State
    requires idx < |s.table|
  {
    var s1 := s.(skip := s.skip - 1, log := s.log + [Matched]);
    if s1.skip > 0 then s1 else OpenedCall(s1.(skip := cfg.skipN), idx, name, openWorks)
  }

  function Lookup(frags: map<FragKey, Handle>, key: FragKey): Handle {
    if key in frags then frags[key] else 0
  }

  /** A follow-on fragment: the lookup inserts a null entry when there is none. */
  function ApplyFollow(s: State, key: FragKey, more: bool): State {
    var f := Lookup(s.frags, key);
    var frags := s.frags[key := f];
    var log := s.log + if f != 0 then [Wrote(Fragment, f, s.pos)] else [];
    if more then s.(frags := frags, log := log)
    else s.(frags := if f != 0 then frags - {key} else frags, log := log + [LastFragment(key)])
  }

  /** An action that names a call applies to used slots only. */
  predicate Enabled(s: State, a: Action) {
    match a
    case MediaIn(addr, port, ssrc, _, _) => FindMedia(s.table, addr, port, ssrc, 0).Hit?
    case NewCall(id, _, _, _, _, _, _) => FindCall(s.table, KeyOf(id), 0) < 0
    case Bye(i) => i < |s.table| && s.table[i].isUsed
    case Offer(i, _, _) => i < |s.table| && s.table[i].isUsed
    case SetEvent(i, _) => i < |s.table| && s.table[i].isUsed
    case SetT38(i) => i < |s.table| && s.table[i].isUsed
    case SipWrite(i) => i < |s.table| && s.table[i].isUsed
    case RecordFragment(i, _) => i < |s.table| && s.table[i].isUsed
    case _ => true
  }

  /** One action; nothing happens when it is not enabled. */
  function Apply(cfg: Config, s: State, a: Action): State {
    if !Enabled(s, a) then s else
    match a
    case Sweep(now) => Cleaned(cfg, s, now).(lastCleanup := now % WORD)
    case MediaIn(addr, port, ssrc, time, secondByte) =>
      ApplyMedia(cfg, s, FindMedia(s.table, addr, port, ssrc, 0), ssrc, time, secondByte)
    case NewCall(id, caller, callee, time, matched, name, openWorks) =>
      var s1 := AddedCall(s, id, caller, callee, time);
      if matched then SampledCall(cfg, s1, FreeSlot(s.table, 0), name, openWorks) else s1
    case Bye(i) => s.(table := s.table[i := s.table[i].(hadBye := true)])
    case Offer(i, addr, port) =>
      s.(table := s.table[i := AddFlow(s.table[i], addr, port)],
         log := s.log + [Offered(i, addr, port, Registers(s.table[i], addr, port))])
    case SetEvent(i, event) => s.(table := s.table[i := s.table[i].(rtpmapEvent := event)])
    case SetT38(i) => s.(table := s.table[i := s.table[i].(hadT38 := true)])
    case SipWrite(i) =>
      if s.table[i].file == 0 then s else s.(log := s.log + [Wrote(Signalling, s.table[i].file, s.pos)])
    case RecordFragment(i, key) =>
      s.(frags := s.frags[key := s.table[i].file], log := s.log + [FirstFragment(key, s.table[i].file)])
    case FollowFragment(key, more) => ApplyFollow(s, key, more)
    case Tick => s.(pos := s.pos + 1)
  }

  function ApplyAll(cfg: Config, s: State, acts: seq<Action>): State
    decreases |acts|
  {
    if acts == [] then s else ApplyAll(cfg, Apply(cfg, s, acts[0]), acts[1..])
  }

  // ---- induction over actions ----

  /** A predicate that every action of a kind keeps. */
  ghost predicate Kept(cfg: Config, inv: State -> bool, kind: Action -> bool) {
    forall s, a :: inv(s) && kind(a) ==> inv(Apply(cfg, s, a))
  }

  lemma {:induction false} KeptByActions(cfg: Config, inv: State -> bool, kind: Action -> bool,
                                         s: State, acts: seq<Action>)
    requires Kept(cfg, inv, kind) && inv(s)
    requires forall a :: a in acts ==> kind(a)
    ensures inv(ApplyAll(cfg, s, acts))
    decreases |acts|
  {
    if acts != [] {
      assert acts[0] in acts;
      KeptByActions(cfg, inv, kind, Apply(cfg, s, acts[0]), acts[1..]);
    }
  }

  predicate AnyAction(a: Action) { true }

  /** What each action adds to the history. */
  function EventsOf(cfg: Config, s: State, a: Action): seq<Event> {
    if !Enabled(s, a) then [] else
    match a
    case Sweep(now) => SweepEvents(s.table, |s.table|, now, cfg)
    case MediaIn(addr, port, ssrc, time, secondByte) =>
      var h := FindMedia(s.table, addr, port, ssrc, 0);
      var slot := s.table[h.slot];
      if Records(cfg, slot, secondByte) then
        [Attributed(h.slot, h.flow, ssrc), Recorded(h.slot, time), Wrote(Media, slot.file, s.pos)]
      else [Attributed(h.slot, h.flow, ssrc)]
    case NewCall(_, _, _, time, matched, name, openWorks) =>
      var added := Added(FreeSlot(s.table, 0), time);
      if !matched then [added]
      else if s.skip > 1 then [added, Matched]
      else if openWorks then [added, Matched, OpenAttempted, Opened(s.nextFile, name)]
      else [added, Matched, OpenAttempted]
    case Offer(i, addr, port) => [Offered(i, addr, port, Registers(s.table[i], addr, port))]
    case SipWrite(i) =>
      if s.table[i].file == 0 then [] else [Wrote(Signalling, s.table[i].file, s.pos)]
    case RecordFragment(i, key) => [FirstFragment(key, s.table[i].file)]
    case FollowFragment(key, more) =>
      var f := Lookup(s.frags, key);
      (if f != 0 then [Wrote(Fragment, f, s.pos)] else []) + (if more then [] else [LastFragment(key)])
    case _ => []
  }

  /** History only grows, and by exactly these events. */
  lemma LogIs(cfg: Config, s: State, a: Action)
    ensures Apply(cfg, s, a).log == s.log + EventsOf(cfg, s, a)
  {
    if a.NewCall? {
      NewCallLogIs(cfg, s, a);
    } else if a.MediaIn? {
      MediaLogIs(cfg, s, a);
    }
  }

  lemma NewCallLogIs(cfg: Config, s: State, a: Action)
    requires a.NewCall?
    ensures Apply(cfg, s, a).log == s.log + EventsOf(cfg, s, a)
  {
  }

  lemma MediaLogIs(cfg: Config, s: State, a: Action)
    requires a.MediaIn?
    ensures Apply(cfg, s, a).log == s.log + EventsOf(cfg, s, a)
  {
  }

  lemma {:induction false} ApplyAllAppend(cfg: Config, s: State, a: seq<Action>, b: seq<Action>)
    ensures ApplyAll(cfg, s, a + b) == ApplyAll(cfg, ApplyAll(cfg, s, a), b)
    decreases |a|
  {
    if a == [] {
      assert a + b == b;
    } else {
      assert (a + b)[1..] == a[1..] + b;
      ApplyAllAppend(cfg, Apply(cfg, s, a[0]), a[1..], b);
    }
  }
}
