/** The packet loop itself: it drives the call table and keeps the sweep clock, the
    sampling counter and the packet count. Each step is exactly one step of the
    state machine. */
module Dispatchers {
  import opened Text
  import opened StrLib
  import opened Sip
  import opened Slots
  import opened Template
  import opened Machine
  import opened Captures
  import opened CallTables

  /** The template's expansion fits its work buffer. */
  ghost predicate ExpansionFits(cfg: Config, data: string, id: string) {
    NUL !in cfg.template && |Expanded(cfg.template, CallFields(data, id))| < |cfg.template| + SLACK
  }

  /** The SIP packet starts a call whose turn has come to get a dump file. */
  ghost predicate NamesFile(cfg: Config, s: State, p: Packet, id: string)
    requires p.body.Udp?
  {
    && FindCall(s.table, KeyOf(id), 0) < 0 && NumberMatches(cfg, p.body.payload)
    && cfg.methodFilter(MethodName(Seen(p.body))) && s.skip <= 1
  }

  ghost predicate SipFits(cfg: Config, s: State, p: Packet)
    requires p.body.Udp?
  {
    var data, id := p.body.payload, CallId(p.body.payload);
    && NameFits(data, "From:", "f:") && NameFits(data, "To:", "t:")
    && (id.Some? && NamesFile(cfg, s, p, id.value) ==> ExpansionFits(cfg, data, id.value))
  }

  /** What the fixed-size buffers of the loop assume of a packet in the state in which it
      is classified: nothing unless it is SIP, and of the file name only if one is made. */
  ghost predicate Fits(cfg: Config, s: State, p: Packet) {
    p.body.Udp? && !IsMedia(cfg, s.table, p.body.dst, p.body.dstPort, p.body)
    && !IsMedia(cfg, s.table, p.body.src, p.body.srcPort, p.body) && IsSip(Seen(p.body)) ==>
      SipFits(cfg, s, p)
  }

  // ---- the plans as the code runs through them ----

  function ApplyIf(cfg: Config, s: State, c: bool, a: Action): State {
    if c then Apply(cfg, s, a) else s
  }

  function OnSdp(cfg: Config, s: State, idx: nat, sdp: string): State {
    var media := cfg.media(sdp);
    if media.None? && cfg.verbose then s
    else
      var s1 := if media.Some? then Apply(cfg, s, Offer(idx, media.value.0, media.value.1)) else s;
      var s2 := ApplyIf(cfg, s1, RtpmapEvent(CString(sdp)) != 0, SetEvent(idx, RtpmapEvent(CString(sdp))));
      ApplyIf(cfg, s2, cfg.t38Only && Search(sdp, "udptl t38", 0) >= 0, SetT38(idx))
  }

  function OnCall(cfg: Config, s: State, idx: nat, p: Body): State
    requires p.Udp?
  {
    var s1 := ApplyIf(cfg, s, MethodName(Seen(p)) == "BYE", Bye(idx));
    var sdp := SdpBody(p.payload);
    var s2 := if sdp.Some? then OnSdp(cfg, s1, idx, sdp.value) else s1;
    var s3 := Apply(cfg, s2, SipWrite(idx));
    if p.first.Some? then Apply(cfg, s3, RecordFragment(idx, p.first.value)) else s3
  }

  lemma ApplyOne(cfg: Config, s: State, a: Action)
    ensures ApplyAll(cfg, s, [a]) == Apply(cfg, s, a)
  {
    assert ApplyAll(cfg, s, [a]) == ApplyAll(cfg, Apply(cfg, s, a), [a][1..]);
  }

  lemma ApplyOptional(cfg: Config, s: State, c: bool, a: Action, more: seq<Action>)
    ensures ApplyAll(cfg, s, (if c then [a] else []) + more) == ApplyAll(cfg, ApplyIf(cfg, s, c, a), more)
  {
    ApplyAllAppend(cfg, s, if c then [a] else [], more);
    if c {
      ApplyOne(cfg, s, a);
    }
  }

  lemma ApplyLast(cfg: Config, s: State, c: bool, a: Action)
    ensures ApplyAll(cfg, s, if c then [a] else []) == ApplyIf(cfg, s, c, a)
  {
    ApplyOne(cfg, s, a);
  }

  lemma SdpPlanRuns(cfg: Config, s: State, idx: nat, sdp: string)
    ensures ApplyAll(cfg, s, SdpPlan(cfg, idx, sdp)) == OnSdp(cfg, s, idx, sdp)
  {
    var media := cfg.media(sdp);
    if media.Some? || !cfg.verbose {
      var ev := RtpmapEvent(CString(sdp));
      var t38 := cfg.t38Only && Search(sdp, "udptl t38", 0) >= 0;
      var offer := if media.Some? then Offer(idx, media.value.0, media.value.1) else Tick;
      var s1 := ApplyIf(cfg, s, media.Some?, offer);
      var c := if t38 then [SetT38(idx)] else [];
      ApplyOptional(cfg, s, media.Some?, offer, (if ev != 0 then [SetEvent(idx, ev)] else []) + c);
      ApplyOptional(cfg, s1, ev != 0, SetEvent(idx, ev), c);
      ApplyLast(cfg, ApplyIf(cfg, s1, ev != 0, SetEvent(idx, ev)), t38, SetT38(idx));
    }
  }

  lemma OnCallPlanRuns(cfg: Config, s: State, idx: nat, p: Body)
    requires p.Udp?
    ensures ApplyAll(cfg, s, OnCallPlan(cfg, idx, p)) == OnCall(cfg, s, idx, p)
  {
    var bye := MethodName(Seen(p)) == "BYE";
    var sdp := SdpBody(p.payload);
    var record := if p.first.Some? then RecordFragment(idx, p.first.value) else Tick;
    var b := if sdp.Some? then SdpPlan(cfg, idx, sdp.value) else [];
    var d := if p.first.Some? then [record] else [];
    var s1 := ApplyIf(cfg, s, bye, Bye(idx));
    var s2 := ApplyAll(cfg, s1, b);
    ApplyOptional(cfg, s, bye, Bye(idx), b + ([SipWrite(idx)] + d));
    ApplyAllAppend(cfg, s1, b, [SipWrite(idx)] + d);
    if sdp.Some? {
      SdpPlanRuns(cfg, s1, idx, sdp.value);
    }
    ApplyOptional(cfg, s2, true, SipWrite(idx), d);
    ApplyLast(cfg, Apply(cfg, s2, SipWrite(idx)), p.first.Some?, record);
  }

  function OnUdp(cfg: Config, s: State, p: Packet): State
    requires p.body.Udp?
  {
    if IsMedia(cfg, s.table, p.body.dst, p.body.dstPort, p.body) then
      Apply(cfg, s, MediaAction(cfg, p.body.dst, p.body.dstPort, p))
    else if IsMedia(cfg, s.table, p.body.src, p.body.srcPort, p.body) then
      Apply(cfg, s, MediaAction(cfg, p.body.src, p.body.srcPort, p))
    else if IsSip(Seen(p.body)) then ApplyAll(cfg, s, SipPlan(cfg, s.table, p))
    else s
  }

  function OnPacket(cfg: Config, s: State, p: Packet): State {
    match p.body
    case Other => s
    case FollowOn(key, more) => Apply(cfg, s, FollowFragment(key, more))
    case Udp(_, _, _, _, _, _, _) => OnUdp(cfg, s, p)
  }

  lemma DispatchRuns(cfg: Config, s: State, p: Packet)
    ensures ApplyAll(cfg, s, Dispatch(cfg, s.table, p)) == OnPacket(cfg, s, p)
  {
    match p.body
    case Other =>
    case FollowOn(key, more) =>
      ApplyOne(cfg, s, FollowFragment(key, more));
    case Udp(src, srcPort, dst, dstPort, _, _, _) =>
      ApplyOne(cfg, s, MediaAction(cfg, dst, dstPort, p));
      ApplyOne(cfg, s, MediaAction(cfg, src, srcPort, p));
  }

  lemma StepIs(cfg: Config, s: State, p: Packet)
    ensures var s1 := OnPacket(cfg, SweepFirst(cfg, s, p.time), p);
            Step(cfg, s, p) == s1.(pos := s1.pos + 1)
  {
    DispatchRuns(cfg, SweepFirst(cfg, s, p.time), p);
  }

  lemma StartCallIs(cfg: Config, s: State, id: string, p: Packet)
    requires p.body.Udp? && FindCall(s.table, KeyOf(id), 0) < 0
    ensures var data := p.body.payload;
            var s1 := AddedCall(s, id, Caller(data), Callee(data), p.time);
            Apply(cfg, s, NewCallAction(cfg, id, p)) ==
            if cfg.methodFilter(MethodName(Seen(p.body)))
            then SampledCall(cfg, s1, FreeSlot(s.table, 0), FileName(cfg, data, id, p.time), p.openWorks)
            else s1
  {
  }

  lemma SampledKeepsSlot(cfg: Config, s: State, idx: nat, name: string, openWorks: bool)
    requires idx < |s.table|
    ensures var t := SampledCall(cfg, s, idx, name, openWorks).table;
            |t| == |s.table| && t[idx].isUsed == s.table[idx].isUsed
  {
  }

  function RecordedMedia(cfg: Config, s: State, i: nat, time: int, secondByte: int): State
    requires i < |s.table|
  {
    var slot := s.table[i];
    if !Records(cfg, slot, secondByte) then s
    else
      s.(table := s.table[i := slot.(lastTime := time, packets := slot.packets + 1)],
         log := s.log + [Recorded(i, time), Wrote(Media, slot.file, s.pos)])
  }

  /** The lookup and the recording make up the media action. */
  lemma MediaIs(cfg: Config, s: State, addr: Addr, port: Port, p: Packet)
    requires p.body.Udp?
    ensures var h := FindMedia(s.table, addr, FlowPort(cfg, port), SsrcOf(cfg, p.body), 0);
            h.Hit? ==>
              var ssrc := SsrcOf(cfg, p.body);
              var s1 := s.(table := Attribute(s.table, h, ssrc), log := s.log + [Attributed(h.slot, h.flow, ssrc)]);
              Apply(cfg, s, MediaAction(cfg, addr, port, p)) ==
              RecordedMedia(cfg, s1, h.slot, p.time, SignedByte(Seen(p.body)[1]))
  {
  }

  class Dispatcher {
    const cfg: Config
    const ct: CallTable
    var lastCleanup: int
    var callSkipCnt: int
    var nextFile: Handle
    var pkts: nat

    ghost predicate Valid()
      reads this, ct
    {
      ct.eraseNonT38 == cfg.t38Only && ct.absoluteTimeout == cfg.limit
    }

    /** The state machine's view of the loop. */
    ghost function Abs(): State
      reads this, ct
    {
      State(ct.table, ct.ipfrags, lastCleanup, callSkipCnt, nextFile, pkts, ct.log)
    }

    constructor (cfg: Config)
      ensures Valid() && this.cfg == cfg && fresh(ct) && Abs() == Init()
    {
      this.cfg := cfg;
      var table := new CallTable();
      table.absoluteTimeout := cfg.limit;
      table.eraseNonT38 := cfg.t38Only;
      ct := table;
      lastCleanup, callSkipCnt, nextFile, pkts := 0, 1, 1, 0;
    }

    /** Looks for a flow at this address and records the packet if one is found. */
    method TryMedia(addr: Addr, port: Port, p: Packet) returns (found: bool)
      requires Valid() && p.body.Udp?
      modifies ct`table, ct`log
      ensures Valid()
      ensures found == IsMedia(cfg, old(ct.table), addr, port, p.body)
      ensures Abs() == if found then Apply(cfg, old(Abs()), MediaAction(cfg, addr, port, p)) else old(Abs())
    {
      if cfg.rtpSave == SaveNone {
        return false;
      }
      var h := ct.FindIpPortSsrc(addr, FlowPort(cfg, port), SsrcOf(cfg, p.body));
      if h.Miss? {
        return false;
      }
      MediaIs(cfg, old(Abs()), addr, port, p);
      Record(h.slot, p.time, SignedByte(Seen(p.body)[1]));
      return true;
    }

    /** Writes a media packet of the call, if it has a file and the payload type is wanted. */
    method Record(idx: nat, time: int, secondByte: int)
      requires idx < |ct.table|
      modifies ct`table, ct`log
      ensures Abs() == RecordedMedia(cfg, old(Abs()), idx, time, secondByte)
    {
      var ce := ct.table[idx];
      if ce.file != 0 && (cfg.rtpSave != SaveRtpEvent || secondByte == ce.rtpmapEvent) {
        ct.table := ct.table[idx := ce.(lastTime := time, packets := ce.packets + 1)];
        ct.log := ct.log + [Recorded(idx, time), Wrote(Media, ce.file, pkts)];
      }
    }

    /** The dump file's name: both passes of the template expansion. */
    method NameFile(data: string, id: string, caller: string, callee: string, time: int) returns (name: string)
      requires caller == Caller(data) && callee == Callee(data)
      requires NUL !in cfg.template
      requires |Expanded(cfg.template, CallFields(data, id))| < |cfg.template| + SLACK
      ensures name == FileName(cfg, data, id, time)
    {
      var s1, n := ExpandFields(cfg.template, Fields(CString(caller), CString(callee), CString(id)));
      name := TimePass(s1[..n], At(cfg, time));
    }

    /** The sampling counter decides whether a new call gets a dump file. */
    method SampleCall(idx: nat, id: string, caller: NameText, callee: NameText, p: Packet)
      requires Valid() && p.body.Udp? && idx < |ct.table|
      requires callSkipCnt <= 1 ==> ExpansionFits(cfg, p.body.payload, id)
      requires CallId(p.body.payload) == Some(id)
      requires caller == Caller(p.body.payload) && callee == Callee(p.body.payload)
      modifies this`callSkipCnt, this`nextFile, ct`table, ct`log
      ensures Abs() == SampledCall(cfg, old(Abs()), idx, FileName(cfg, p.body.payload, id, p.time), p.openWorks)
    {
      ct.log := ct.log + [Matched];
      callSkipCnt := callSkipCnt - 1;
      if callSkipCnt <= 0 {
        callSkipCnt := cfg.skipN;
        var name := NameFile(p.body.payload, id, caller, callee, p.time);
        OpenFile(idx, name, p.openWorks);
      }
    }

    /** `pcap_dump_open`: a fresh file, or NULL. */
    method OpenFile(idx: nat, name: string, works: bool)
      requires idx < |ct.table|
      modifies this`nextFile, ct`table, ct`log
      ensures Abs() == OpenedCall(old(Abs()), idx, name, works)
    {
      var file := if works then nextFile else 0;
      ct.table := ct.table[idx := ct.table[idx].(file := file, fileName := CutName(name))];
      if works {
        nextFile := nextFile + 1;
        ct.log := ct.log + [OpenAttempted, Opened(file, name)];
      } else {
        ct.log := ct.log + [OpenAttempted];
      }
    }

    /** A call seen for the first time: it is added, and sampled if its method matches. */
    method StartCall(id: string, caller: NameText, callee: NameText, p: Packet) returns (idx: nat)
      requires Valid() && p.body.Udp?
      requires cfg.methodFilter(MethodName(Seen(p.body))) && callSkipCnt <= 1 ==>
                 ExpansionFits(cfg, p.body.payload, id)
      requires CallId(p.body.payload) == Some(id)
      requires caller == Caller(p.body.payload) && callee == Callee(p.body.payload)
      requires FindCall(ct.table, KeyOf(id), 0) < 0
      modifies this`callSkipCnt, this`nextFile, ct`table, ct`log
      ensures idx == FreeSlot(old(ct.table), 0) && idx < |ct.table| && ct.table[idx].isUsed
      ensures Abs() == Apply(cfg, old(Abs()), NewCallAction(cfg, id, p))
    {
      StartCallIs(cfg, Abs(), id, p);
      idx := ct.Add(id, caller, callee, p.time);
      if cfg.methodFilter(MethodName(Seen(p.body))) {
        SampledKeepsSlot(cfg, Abs(), idx, FileName(cfg, p.body.payload, id, p.time), p.openWorks);
        SampleCall(idx, id, caller, callee, p);
      }
    }

    // each of these is one action on a used slot

    method MarkBye(idx: nat)
      requires Valid() && idx < |ct.table| && ct.table[idx].isUsed
      modifies ct`table
      ensures idx < |ct.table| && ct.table[idx].isUsed
      ensures Abs() == Apply(cfg, old(Abs()), Bye(idx))
    {
      ct.table := ct.table[idx := ct.table[idx].(hadBye := true)];
    }

    method TrackMedia(idx: nat, addr: Addr, port: Port)
      requires Valid() && idx < |ct.table| && ct.table[idx].isUsed
      modifies ct`table, ct`log
      ensures idx < |ct.table| && ct.table[idx].isUsed
      ensures Abs() == Apply(cfg, old(Abs()), Offer(idx, addr, port))
    {
      var rc := ct.AddIpPort(idx, addr, port);
    }

    method SetRtpmapEvent(idx: nat, event: nat)
      requires Valid() && idx < |ct.table| && ct.table[idx].isUsed
      modifies ct`table
      ensures idx < |ct.table| && ct.table[idx].isUsed
      ensures Abs() == Apply(cfg, old(Abs()), SetEvent(idx, event))
    {
      ct.table := ct.table[idx := ct.table[idx].(rtpmapEvent := event)];
    }

    method MarkT38(idx: nat)
      requires Valid() && idx < |ct.table| && ct.table[idx].isUsed
      modifies ct`table
      ensures idx < |ct.table| && ct.table[idx].isUsed
      ensures Abs() == Apply(cfg, old(Abs()), SetT38(idx))
    {
      ct.table := ct.table[idx := ct.table[idx].(hadT38 := true)];
    }

    method WriteSip(idx: nat)
      requires Valid() && idx < |ct.table| && ct.table[idx].isUsed
      modifies ct`log
      ensures Abs() == Apply(cfg, old(Abs()), SipWrite(idx))
    {
      if ct.table[idx].file != 0 {
        ct.log := ct.log + [Wrote(Signalling, ct.table[idx].file, pkts)];
      }
    }

    method NoteFragment(idx: nat, key: FragKey)
      requires Valid() && idx < |ct.table| && ct.table[idx].isUsed
      modifies ct`ipfrags, ct`log
      ensures Abs() == Apply(cfg, old(Abs()), RecordFragment(idx, key))
    {
      ct.AddIpfrag(key, ct.table[idx].file);
      ct.log := ct.log + [FirstFragment(key, ct.table[idx].file)];
    }

    /** Registers what the SDP body of a call's message announces. */
    method ParseSdp(sdp: string, idx: nat)
      requires Valid() && idx < |ct.table| && ct.table[idx].isUsed
      modifies ct
      ensures Valid() && idx < |ct.table| && ct.table[idx].isUsed
      ensures Abs() == OnSdp(cfg, old(Abs()), idx, sdp)
    {
      var media := cfg.media(sdp);
      if media.Some? {
        TrackMedia(idx, media.value.0, media.value.1);
      } else if cfg.verbose {
        return;
      }
      var event := SdpGetRtpmapEvent(CString(sdp));
      if event != 0 {
        SetRtpmapEvent(idx, event);
      }
      if cfg.t38Only {
        var at := Memmem(sdp, "udptl t38");
        if at >= 0 {
          MarkT38(idx);
        }
      }
    }

    /** A SIP message of the call in slot `idx`. */
    method HandleCallMessage(idx: nat, p: Packet)
      requires Valid() && p.body.Udp? && idx < |ct.table| && ct.table[idx].isUsed
      modifies ct
      ensures Valid()
      ensures Abs() == OnCall(cfg, old(Abs()), idx, p.body)
    {
      if MethodName(Seen(p.body)) == "BYE" {
        MarkBye(idx);
      }
      var sdp := FindSdpBody(p.body.payload);
      if sdp.Some? {
        ParseSdp(sdp.value, idx);
      }
      WriteSip(idx);
      if p.body.first.Some? {
        NoteFragment(idx, p.body.first.value);
      }
    }

    method HandleSip(p: Packet)
      requires Valid() && p.body.Udp? && SipFits(cfg, Abs(), p)
      modifies this, ct
      ensures Valid()
      ensures Abs() == ApplyAll(cfg, old(Abs()), SipPlan(cfg, old(ct.table), p))
    {
      ghost var s := Abs();
      var data := p.body.payload;
      var caller := ReadName(data, "From:", "f:");
      var callee := ReadName(data, "To:", "t:");
      var id := FindLongOrShort(data, "Call-ID:", "i:");
      if id.Some? {
        var found := ct.FindByCallId(id.value);
        if found >= 0 {
          HandleCallMessage(found, p);
          OnCallPlanRuns(cfg, s, found, p.body);
        } else if cfg.numberFilter(CString(caller)) || cfg.numberFilter(CString(callee)) {
          HandleNewCall(id.value, caller, callee, p);
        }
      }
    }

    /** The first message of a call: it is added, and then handled as any message of it. */
    method HandleNewCall(id: string, caller: NameText, callee: NameText, p: Packet)
      requires Valid() && p.body.Udp?
      requires cfg.methodFilter(MethodName(Seen(p.body))) && callSkipCnt <= 1 ==>
                 ExpansionFits(cfg, p.body.payload, id)
      requires CallId(p.body.payload) == Some(id) && FindCall(ct.table, KeyOf(id), 0) < 0
      requires caller == Caller(p.body.payload) && callee == Callee(p.body.payload)
      modifies this`callSkipCnt, this`nextFile, ct
      ensures Valid()
      ensures var plan := [NewCallAction(cfg, id, p)] + OnCallPlan(cfg, FreeSlot(old(ct.table), 0), p.body);
              Abs() == ApplyAll(cfg, old(Abs()), plan)
    {
      ghost var s := Abs();
      var idx := StartCall(id, caller, callee, p);
      ghost var s1 := Abs();
      HandleCallMessage(idx, p);
      OnCallPlanRuns(cfg, s1, idx, p.body);
      ApplyOptional(cfg, s, true, NewCallAction(cfg, id, p), OnCallPlan(cfg, idx, p.body));
    }

    method HandleUdp(p: Packet)
      requires Valid() && p.body.Udp? && Fits(cfg, Abs(), p)
      modifies this, ct
      ensures Valid()
      ensures Abs() == OnUdp(cfg, old(Abs()), p)
    {
      var found := TryMedia(p.body.dst, p.body.dstPort, p);
      if !found {
        found := TryMedia(p.body.src, p.body.srcPort, p);
        if !found && IsSip(Seen(p.body)) {
          HandleSip(p);
        }
      }
    }

    method HandleFollowOn(key: FragKey, more: bool)
      requires Valid()
      modifies this, ct
      ensures Valid()
      ensures Abs() == Apply(cfg, old(Abs()), FollowFragment(key, more))
    {
      var f := ct.GetIpfrag(key);
      if f != 0 {
        ct.log := ct.log + [Wrote(Fragment, f, pkts)];
        if !more {
          ct.DeleteIpfrag(key);
        }
      }
      if !more {
        ct.log := ct.log + [LastFragment(key)];
      }
    }

    /** The sweep: after more than 15 seconds, or when the clock stands before the last one. */
    method SweepIfDue(time: int)
      requires Valid()
      modifies this`lastCleanup, ct`table, ct`log
      ensures Valid()
      ensures Abs() == SweepFirst(cfg, old(Abs()), time)
    {
      if (time - lastCleanup) % WORD > 15 {
        ct.DoCleanup(time, cfg);
        lastCleanup := time % WORD;
      }
    }

    method DispatchPacket(p: Packet)
      requires Valid() && Fits(cfg, Abs(), p)
      modifies this, ct
      ensures Valid()
      ensures Abs() == OnPacket(cfg, old(Abs()), p)
    {
      match p.body {
        case Other =>
        case FollowOn(key, more) =>
          HandleFollowOn(key, more);
        case Udp(_, _, _, _, _, _, _) =>
          HandleUdp(p);
      }
    }

    /** One packet: the sweep if it is due, then the classification. */
    method HandlePacket(p: Packet)
      requires Valid() && Fits(cfg, SweepFirst(cfg, Abs(), p.time), p)
      modifies this, ct
      ensures Valid()
      ensures Abs() == Step(cfg, old(Abs()), p)
    {
      StepIs(cfg, Abs(), p);
      SweepIfDue(p.time);
      DispatchPacket(p);
      pkts := pkts + 1;
    }

    /** The whole capture, followed by the final sweep. */
    method Capture(ps: seq<Packet>)
      requires Valid() && Abs() == Init()
      requires forall n :: 0 <= n < |ps| ==> Fits(cfg, Before(cfg, ps[..n], ps[n]), ps[n])
      modifies this, ct
      ensures Valid()
      ensures Abs() == Finish(cfg, Run(cfg, ps))
    {
      var i := 0;
      while i < |ps|
        invariant 0 <= i <= |ps|
        invariant Valid() && Abs() == Run(cfg, ps[..i])
      {
        assert ps[..i + 1][..i] == ps[..i];
        HandlePacket(ps[i]);
        i := i + 1;
      }
      assert ps[..i] == ps;
      ct.DoCleanup(INT32_MAX, cfg);
    }
  }
}
