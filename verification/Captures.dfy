/** Captures: which actions one packet causes, in the order of the loop's branches,
    and what a run over a sequence of packets is. */
module Captures {
  import opened Text
  import opened StrLib
  import opened Sip
  import opened Slots
  import opened Template
  import opened Machine

  datatype Body =
    | Other
    | FollowOn(key: FragKey, more: bool)
    | Udp(src: Addr, srcPort: Port, dst: Addr, dstPort: Port, payload: string, past: Payload, first: Option<FragKey>)

  /** A captured packet, decoded; `openWorks` is the outcome of opening a dump file
      while it is handled, should that happen. */
  datatype Packet = Packet(time: int, openWorks: bool, body: Body)

  // ---- which actions a packet causes ----

  /** What the loop's reads at fixed offsets see: the payload and, where that is
      short, whatever stands behind it in memory. */
  function Seen(p: Body): (data: Payload)
    requires p.Udp?
    ensures |p.payload| >= LEAST_PAYLOAD ==> data[..LEAST_PAYLOAD] == p.payload[..LEAST_PAYLOAD]
  {
    p.payload + p.past
  }

  function SignedByte(c: char): int {
    var b := c as int % 256;
    if b >= 128 then b - 256 else b
  }

  function BigEndian32(data: Payload, at: nat): Ssrc
    requires at + 4 <= LEAST_PAYLOAD
  {
    ((data[at] as int % 256 * 256 + data[at + 1] as int % 256) * 256 + data[at + 2] as int % 256) * 256
    + data[at + 3] as int % 256
  }

  /** The SSRC of an RTP packet, or of an RTCP packet (both ports odd). */
  function SsrcOf(cfg: Config, p: Body): Ssrc
    requires p.Udp?
  {
    if cfg.rtpSave == SaveRtpRtcp && p.srcPort % 2 == 1 && p.dstPort % 2 == 1
    then BigEndian32(Seen(p), 4) else BigEndian32(Seen(p), 8)
  }

  /** RTCP shares the flow of the even port below it. */
  function FlowPort(cfg: Config, port: Port): Port {
    if cfg.rtpSave == SaveRtpRtcp then port - port % 2 else port
  }

  function Caller(data: string): NameText { NameBuffer(data, "From:", "f:") }

  function Callee(data: string): NameText { NameBuffer(data, "To:", "t:") }

  function CallFields(data: string, id: string): Fields {
    Fields(CString(Caller(data)), CString(Callee(data)), CString(id))
  }

  function At(cfg: Config, time: int): Conversions { c => cfg.conv(time, c) }

  function FileName(cfg: Config, data: string, id: string, time: int): string {
    TimePass(Expanded(cfg.template, CallFields(data, id)), At(cfg, time))
  }

  predicate NumberMatches(cfg: Config, data: string) {
    cfg.numberFilter(CString(Caller(data))) || cfg.numberFilter(CString(Callee(data)))
  }

  function SdpPlan(cfg: Config, idx: nat, sdp: string): seq<Action> {
    var media := cfg.media(sdp);
    if media.None? && cfg.verbose then []
    else
      var event := RtpmapEvent(CString(sdp));
      (if media.Some? then [Offer(idx, media.value.0, media.value.1)] else [])
      + ((if event != 0 then [SetEvent(idx, event)] else [])
         + (if cfg.t38Only && Search(sdp, "udptl t38", 0) >= 0 then [SetT38(idx)] else []))
  }

  /** What a SIP message of a known call causes. */
  function OnCallPlan(cfg: Config, idx: nat, p: Body): seq<Action>
    requires p.Udp?
  {
    var sdp := SdpBody(p.payload);
    (if MethodName(Seen(p)) == "BYE" then [Bye(idx)] else [])
    + ((if sdp.Some? then SdpPlan(cfg, idx, sdp.value) else [])
       + ([SipWrite(idx)]
          + (if p.first.Some? then [RecordFragment(idx, p.first.value)] else [])))
  }

  function NewCallAction(cfg: Config, id: string, p: Packet): Action
    requires p.body.Udp?
  {
    var data := p.body.payload;
    NewCall(id, Caller(data), Callee(data), p.time, cfg.methodFilter(MethodName(Seen(p.body))),
            FileName(cfg, data, id, p.time), p.openWorks)
  }

  function SipPlan(cfg: Config, t: Table, p: Packet): seq<Action>
    requires p.body.Udp?
  {
    match CallId(p.body.payload)
    case None => []
    case Some(id) =>
      var idx := FindCall(t, KeyOf(id), 0);
      if idx >= 0 then OnCallPlan(cfg, idx, p.body)
      else if !NumberMatches(cfg, p.body.payload) then []
      else [NewCallAction(cfg, id, p)] + OnCallPlan(cfg, FreeSlot(t, 0), p.body)
  }

  function MediaAction(cfg: Config, addr: Addr, port: Port, p: Packet): Action
    requires p.body.Udp?
  {
    MediaIn(addr, FlowPort(cfg, port), SsrcOf(cfg, p.body), p.time, SignedByte(Seen(p.body)[1]))
  }

  /** Whether a packet to or from this address is media of a tracked flow. */
  predicate IsMedia(cfg: Config, t: Table, addr: Addr, port: Port, p: Body)
    requires p.Udp?
  {
    cfg.rtpSave != SaveNone && FindMedia(t, addr, FlowPort(cfg, port), SsrcOf(cfg, p), 0).Hit?
  }

  /** The classification: follow-on fragment, media by destination, media by source, SIP. */
  function Dispatch(cfg: Config, t: Table, p: Packet): seq<Action> {
    match p.body
    case Other => []
    case FollowOn(key, more) => [FollowFragment(key, more)]
    case Udp(src, srcPort, dst, dstPort, _, _, _) =>
      if IsMedia(cfg, t, dst, dstPort, p.body) then [MediaAction(cfg, dst, dstPort, p)]
      else if IsMedia(cfg, t, src, srcPort, p.body) then [MediaAction(cfg, src, srcPort, p)]
      else if IsSip(Seen(p.body)) then SipPlan(cfg, t, p)
      else []
  }

  /** The optional sweep that comes before the packet is looked at. */
  function SweepFirst(cfg: Config, s: State, time: int): State {
    if SweepDue(s, time) then Apply(cfg, s, Sweep(time)) else s
  }

  function Step(cfg: Config, s: State, p: Packet): State {
    var s1 := SweepFirst(cfg, s, p.time);
    Apply(cfg, ApplyAll(cfg, s1, Dispatch(cfg, s1.table, p)), Tick)
  }

  function RunFrom(cfg: Config, s: State, ps: seq<Packet>): State {
    if ps == [] then s else Step(cfg, RunFrom(cfg, s, ps[..|ps| - 1]), ps[|ps| - 1])
  }

  function Run(cfg: Config, ps: seq<Packet>): State { RunFrom(cfg, Init(), ps) }

  /** The state in which a packet of a capture is classified. */
  function Before(cfg: Config, ps: seq<Packet>, p: Packet): State { SweepFirst(cfg, Run(cfg, ps), p.time) }

  /** The end of the capture: one sweep at the largest 32-bit time. */
  function Finish(cfg: Config, s: State): State { Cleaned(cfg, s, INT32_MAX) }

  lemma {:induction false} RunsJoin(cfg: Config, s: State, a: seq<Packet>, b: seq<Packet>)
    ensures RunFrom(cfg, s, a + b) == RunFrom(cfg, RunFrom(cfg, s, a), b)
    decreases |b|
  {
    if b == [] {
      assert a + b == a;
    } else {
      assert (a + b)[..|a + b| - 1] == a + b[..|b| - 1];
      RunsJoin(cfg, s, a, b[..|b| - 1]);
    }
  }

  // ---- induction over runs ----

  /** What every action of a packet's dispatch has in common. */
  predicate FromPacket(a: Action, p: Packet) {
    && !a.Sweep? && !a.Tick?
    && (a.MediaIn? ==> a.time == p.time)
    && (a.NewCall? ==> a.time == p.time)
    && (a.FollowFragment? ==> p.body == FollowOn(a.key, a.more))
  }

  /** What a SIP message of a known call does to its slot. */
  predicate OnUsedSlot(a: Action) {
    a.Bye? || a.Offer? || a.SetEvent? || a.SetT38? || a.SipWrite? || a.RecordFragment?
  }

  ghost predicate AllOnUsedSlot(acts: seq<Action>) {
    forall a :: a in acts ==> OnUsedSlot(a)
  }

  lemma AllAppend(x: seq<Action>, y: seq<Action>)
    requires AllOnUsedSlot(x) && AllOnUsedSlot(y)
    ensures AllOnUsedSlot(x + y)
  {
  }

  lemma SdpOnUsedSlot(cfg: Config, idx: nat, sdp: string)
    ensures AllOnUsedSlot(SdpPlan(cfg, idx, sdp))
  {
  }

  lemma OnCallOnUsedSlot(cfg: Config, idx: nat, body: Body)
    requires body.Udp?
    ensures AllOnUsedSlot(OnCallPlan(cfg, idx, body))
  {
    var sdp := SdpBody(body.payload);
    var b := if sdp.Some? then SdpPlan(cfg, idx, sdp.value) else [];
    var c := [SipWrite(idx)] + (if body.first.Some? then [RecordFragment(idx, body.first.value)] else []);
    if sdp.Some? {
      SdpOnUsedSlot(cfg, idx, sdp.value);
    }
    AllAppend(b, c);
    AllAppend(if MethodName(Seen(body)) == "BYE" then [Bye(idx)] else [], b + c);
  }

  /** A SIP packet causes at most one new call, before everything else. */
  lemma SipStartsOnce(cfg: Config, t: Table, p: Packet)
    requires p.body.Udp?
    ensures var acts := SipPlan(cfg, t, p);
            || AllOnUsedSlot(acts)
            || (acts != [] && acts[0].NewCall? && acts[0].time == p.time && FindCall(t, KeyOf(acts[0].id), 0) < 0
                && AllOnUsedSlot(acts[1..]))
  {
    var id := CallId(p.body.payload);
    if id.Some? {
      var idx := FindCall(t, KeyOf(id.value), 0);
      if idx >= 0 {
        OnCallOnUsedSlot(cfg, idx, p.body);
      } else {
        OnCallOnUsedSlot(cfg, FreeSlot(t, 0), p.body);
        var rest := OnCallPlan(cfg, FreeSlot(t, 0), p.body);
        assert ([NewCallAction(cfg, id.value, p)] + rest)[1..] == rest;
      }
    }
  }

  ghost predicate AllFrom(acts: seq<Action>, p: Packet) {
    forall a :: a in acts ==> FromPacket(a, p)
  }

  lemma StartFromPacket(acts: seq<Action>, p: Packet)
    requires || AllOnUsedSlot(acts)
             || (acts != [] && acts[0].NewCall? && acts[0].time == p.time && AllOnUsedSlot(acts[1..]))
    ensures AllFrom(acts, p)
  {
    if acts != [] {
      assert forall a :: a in acts ==> a == acts[0] || a in acts[1..];
    }
  }

  lemma DispatchFromPacket(cfg: Config, t: Table, p: Packet)
    ensures AllFrom(Dispatch(cfg, t, p), p)
  {
    if p.body.Udp? {
      SipStartsOnce(cfg, t, p);
      StartFromPacket(SipPlan(cfg, t, p), p);
    }
  }

  /** All the actions that a packet can cause are of the kind. */
  ghost predicate Causes(kind: Action -> bool, p: Packet) {
    && kind(Sweep(p.time)) && kind(Tick)
    && forall a :: FromPacket(a, p) ==> kind(a)
  }

  lemma KeptByStep(cfg: Config, inv: State -> bool, kind: Action -> bool, s: State, p: Packet)
    requires Kept(cfg, inv, kind) && inv(s) && Causes(kind, p)
    ensures inv(SweepFirst(cfg, s, p.time)) && inv(Step(cfg, s, p))
  {
    var s1 := SweepFirst(cfg, s, p.time);
    assert inv(Apply(cfg, s, Sweep(p.time)));
    DispatchFromPacket(cfg, s1.table, p);
    KeptByActions(cfg, inv, kind, s1, Dispatch(cfg, s1.table, p));
  }

  /** A predicate that holds at the start and is kept by every action that the
      packets can cause holds after the run. */
  lemma {:induction false} KeptByRun(cfg: Config, inv: State -> bool, kind: Action -> bool, s: State, ps: seq<Packet>)
    requires Kept(cfg, inv, kind) && inv(s)
    requires forall p :: p in ps ==> Causes(kind, p)
    ensures inv(RunFrom(cfg, s, ps))
  {
    if ps != [] {
      assert ps[|ps| - 1] in ps;
      KeptByRun(cfg, inv, kind, s, ps[..|ps| - 1]);
      KeptByStep(cfg, inv, kind, RunFrom(cfg, s, ps[..|ps| - 1]), ps[|ps| - 1]);
    }
  }
}
