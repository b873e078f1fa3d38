/** Which packets are messages of which call, and what the messages of a call have told
    the table: that it ended, that it carried T.38, and the number of its telephone
    events. */
module Messages {
  import opened Text
  import opened StrLib
  import opened Sip
  import opened SipBytes
  import opened Slots
  import opened Machine
  import opened Captures
  import opened Dispatchers
  import opened TableShape
  import opened WholeRuns
  import opened CallStory

  // ---- whose message a packet is ----

  /** A packet that is SIP to the loop: not media of a tracked flow, and SIP by its bytes. */
  ghost predicate IsMessage(cfg: Config, t: Table, p: Packet) {
    p.body.Udp? && MediaSide(cfg, t, p.body).None? && LooksSip(Seen(p.body)) && CallId(p.body.payload).Some?
  }

  /** The message's call is not tracked, and is admitted. */
  ghost predicate Starts(cfg: Config, t: Table, p: Packet) {
    && IsMessage(cfg, t, p) && FindCall(t, KeyOf(CallId(p.body.payload).value), 0) < 0
    && NumberMatches(cfg, p.body.payload)
  }

  /** The slot of the call that the packet is a message of. */
  ghost function MessageOf(cfg: Config, t: Table, p: Packet): Option<nat> {
    if !IsMessage(cfg, t, p) then None
    else
      var i := FindCall(t, KeyOf(CallId(p.body.payload).value), 0);
      if i >= 0 then Some(i) else if NumberMatches(cfg, p.body.payload) then Some(FreeSlot(t, 0)) else None
  }

  /** The call as it is when the message is handled: added first, if it is new. */
  ghost function Ready(cfg: Config, s: State, p: Packet): State {
    if Starts(cfg, s.table, p) then Apply(cfg, s, NewCallAction(cfg, CallId(p.body.payload).value, p)) else s
  }

  /** A message is handled as one of its call, which is added first if it is new. */
  lemma MessageIs(cfg: Config, s: State, p: Packet)
    requires MessageOf(cfg, s.table, p).Some?
    ensures OnPacket(cfg, s, p) == OnCall(cfg, Ready(cfg, s, p), MessageOf(cfg, s.table, p).value, p.body)
  {
    var id := CallId(p.body.payload).value;
    var i := MessageOf(cfg, s.table, p).value;
    IsSipIff(Seen(p.body));
    if Starts(cfg, s.table, p) {
      ApplyOptional(cfg, s, true, NewCallAction(cfg, id, p), OnCallPlan(cfg, i, p.body));
    }
    OnCallPlanRuns(cfg, Ready(cfg, s, p), i, p.body);
  }

  /** A UDP packet that is neither media nor, by its bytes, SIP leaves no trace; nor does
      a message without a Call-ID, or of a call that is neither tracked nor admitted. */
  lemma NoMessageIs(cfg: Config, s: State, p: Packet)
    requires p.body.Udp? && MediaSide(cfg, s.table, p.body).None? && MessageOf(cfg, s.table, p).None?
    ensures OnPacket(cfg, s, p) == s
  {
    IsSipIff(Seen(p.body));
  }

  /** Over captures: whatever is not media, and not SIP by its bytes, only goes by. */
  lemma OtherPacketsGoBy(cfg: Config, ps: seq<Packet>, p: Packet)
    requires p.body.Udp?
    ensures var s := Before(cfg, ps, p);
            MediaSide(cfg, s.table, p.body).None? && !LooksSip(Seen(p.body)) ==>
              Run(cfg, ps + [p]) == s.(pos := s.pos + 1)
  {
    var s := Before(cfg, ps, p);
    assert (ps + [p])[..|ps + [p]| - 1] == ps;
    StepIs(cfg, Run(cfg, ps), p);
    if MediaSide(cfg, s.table, p.body).None? && !LooksSip(Seen(p.body)) {
      NoMessageIs(cfg, s, p);
    }
  }

  // ---- what a message tells ----

  /** What the messages of a call have told so far. */
  datatype Notes = Notes(ended: bool, t38: bool, event: nat)

  function NotesOf(s: Slot): Notes { Notes(s.hadBye, s.hadT38, s.rtpmapEvent) }

  /** The message ends its call. */
  predicate SaysBye(p: Body) { p.Udp? && LooksBye(Seen(p)) }

  /** The body that is parsed: verbose runs give up on a body without an address. */
  function ParsedSdp(cfg: Config, p: Body): Option<string> {
    if p.Udp? && SdpBody(p.payload).Some? && (cfg.media(SdpBody(p.payload).value).Some? || !cfg.verbose)
    then SdpBody(p.payload) else None
  }

  /** T.38 is looked for, and the parsed body names it. */
  ghost predicate SaysT38(cfg: Config, p: Body) {
    var sdp := ParsedSdp(cfg, p);
    cfg.t38Only && sdp.Some? && exists q: nat :: OccursAt(sdp.value, "udptl t38", q)
  }

  /** The telephone-event number in the parsed body, or 0. */
  function SaysEvent(cfg: Config, p: Body): nat {
    var sdp := ParsedSdp(cfg, p);
    if sdp.Some? then RtpmapEvent(CString(sdp.value)) else 0
  }

  ghost function Noted(cfg: Config, n: Notes, p: Body): Notes {
    Notes(n.ended || SaysBye(p), n.t38 || SaysT38(cfg, p),
          if SaysEvent(cfg, p) != 0 then SaysEvent(cfg, p) else n.event)
  }

  /** Only slot `i` changes. */
  ghost predicate OnlyIn(s: State, r: State, i: nat) {
    i < |s.table| && |r.table| == |s.table| && forall j :: 0 <= j < |s.table| && j != i ==> r.table[j] == s.table[j]
  }

  /** Action by action. */
  lemma ByeNotes(cfg: Config, s: State, c: bool, i: nat)
    requires i < |s.table| && s.table[i].isUsed
    ensures var r := ApplyIf(cfg, s, c, Bye(i));
            OnlyIn(s, r, i) && NotesOf(r.table[i]) == NotesOf(s.table[i]).(ended := s.table[i].hadBye || c)
  {
  }

  lemma EventNotes(cfg: Config, s: State, c: bool, i: nat, event: nat)
    requires i < |s.table| && s.table[i].isUsed
    ensures var r := ApplyIf(cfg, s, c, SetEvent(i, event));
            OnlyIn(s, r, i)
            && NotesOf(r.table[i]) == NotesOf(s.table[i]).(event := if c then event else s.table[i].rtpmapEvent)
  {
  }

  lemma T38Notes(cfg: Config, s: State, c: bool, i: nat)
    requires i < |s.table| && s.table[i].isUsed
    ensures var r := ApplyIf(cfg, s, c, SetT38(i));
            OnlyIn(s, r, i) && NotesOf(r.table[i]) == NotesOf(s.table[i]).(t38 := s.table[i].hadT38 || c)
  {
  }

  lemma QuietNotes(cfg: Config, s: State, c: bool, a: Action, i: nat)
    requires i < |s.table| && s.table[i].isUsed
    requires (a.Offer? || a.SipWrite? || a.RecordFragment?) && a.slot == i
    ensures var r := ApplyIf(cfg, s, c, a); OnlyIn(s, r, i) && NotesOf(r.table[i]) == NotesOf(s.table[i])
  {
  }

  lemma SdpNotes(cfg: Config, s: State, i: nat, sdp: string)
    requires i < |s.table| && s.table[i].isUsed
    ensures var r := OnSdp(cfg, s, i, sdp);
            var n := NotesOf(s.table[i]);
            var event := RtpmapEvent(CString(sdp));
            var t38 := cfg.t38Only && exists q: nat :: OccursAt(sdp, "udptl t38", q);
            && OnlyIn(s, r, i)
            && NotesOf(r.table[i]) ==
               if cfg.media(sdp).None? && cfg.verbose then n
               else Notes(n.ended, n.t38 || t38, if event != 0 then event else n.event)
  {
    var media := cfg.media(sdp);
    if media.Some? || !cfg.verbose {
      var event := RtpmapEvent(CString(sdp));
      var t38 := cfg.t38Only && Search(sdp, "udptl t38", 0) >= 0;
      var s1 := if media.Some? then Apply(cfg, s, Offer(i, media.value.0, media.value.1)) else s;
      var s2 := ApplyIf(cfg, s1, event != 0, SetEvent(i, event));
      if media.Some? {
        QuietNotes(cfg, s, true, Offer(i, media.value.0, media.value.1), i);
        ActionGrows(cfg, s, Offer(i, media.value.0, media.value.1), i);
      }
      EventNotes(cfg, s1, event != 0, i, event);
      IfGrows(cfg, s1, event != 0, SetEvent(i, event), i);
      T38Notes(cfg, s2, t38, i);
    }
  }

  lemma OnlyInJoins(s: State, s1: State, r: State, i: nat)
    requires OnlyIn(s, s1, i) && OnlyIn(s1, r, i)
    ensures OnlyIn(s, r, i)
  {
  }

  lemma BodyNotes(cfg: Config, s: State, i: nat, p: Body)
    requires p.Udp? && i < |s.table| && s.table[i].isUsed
    ensures var r := AfterSdp(cfg, s, i, p);
            OnlyIn(s, r, i) && NotesOf(r.table[i]) == Noted(cfg, NotesOf(s.table[i]), p)
  {
    var bye := MethodName(Seen(p)) == "BYE";
    var s1 := ApplyIf(cfg, s, bye, Bye(i));
    IsByeIff(Seen(p));
    ByeNotes(cfg, s, bye, i);
    IfGrows(cfg, s, bye, Bye(i), i);
    if SdpBody(p.payload).Some? {
      SdpNotes(cfg, s1, i, SdpBody(p.payload).value);
      OnlyInJoins(s, s1, AfterSdp(cfg, s, i, p), i);
    }
  }

  lemma WriteNotes(cfg: Config, s: State, i: nat, p: Body)
    requires p.Udp? && i < |s.table| && s.table[i].isUsed
    ensures var r := AfterWrite(cfg, s, i, p); OnlyIn(s, r, i) && NotesOf(r.table[i]) == NotesOf(s.table[i])
  {
    var s3 := Apply(cfg, s, SipWrite(i));
    QuietNotes(cfg, s, true, SipWrite(i), i);
    ActionGrows(cfg, s, SipWrite(i), i);
    if p.first.Some? {
      QuietNotes(cfg, s3, true, RecordFragment(i, p.first.value), i);
      OnlyInJoins(s, s3, AfterWrite(cfg, s, i, p), i);
    }
  }

  /** A message of the call in slot `i` is noted there, and touches no other slot. */
  lemma OnCallNotes(cfg: Config, s: State, i: nat, p: Body)
    requires p.Udp? && i < |s.table| && s.table[i].isUsed
    ensures var r := OnCall(cfg, s, i, p);
            && OnlyIn(s, r, i) && NotesOf(r.table[i]) == Noted(cfg, NotesOf(s.table[i]), p)
            && r.table[i].isUsed && r.table[i].file == s.table[i].file
  {
    var s2 := AfterSdp(cfg, s, i, p);
    MessageStory(cfg, s, i, p);
    assert RecordOf(OnCall(cfg, s, i, p).table[i]).file == RecordOf(s.table[i]).file;
    BodyNotes(cfg, s, i, p);
    BodyStory(cfg, s, i, p);
    WriteNotes(cfg, s2, i, p);
    assert OnCall(cfg, s, i, p) == AfterWrite(cfg, s2, i, p);
    OnlyInJoins(s, s2, AfterWrite(cfg, s2, i, p), i);
  }

  const FRESH := Notes(false, false, 101)

  /** Slots other than `i` are those of `t`. */
  ghost predicate OthersFrom(t: Table, r: Table, i: nat) {
    && |r| <= |t| + 1 && (|r| == |t| + 1 ==> i == |t|)
    && forall j :: 0 <= j < |t| && j < |r| && j != i ==> r[j] == t[j]
  }

  /** A new call starts with nothing told, in a slot of its own. */
  lemma ReadyNotes(cfg: Config, s: State, p: Packet)
    requires Shaped(s) && Starts(cfg, s.table, p)
    ensures var r, i := Ready(cfg, s, p), FreeSlot(s.table, 0);
            && i < |r.table| && r.table[i].isUsed && NotesOf(r.table[i]) == FRESH
            && |s.table| <= |r.table| <= |s.table| + 1
            && OthersFrom(s.table, r.table, i)
  {
    NewCallStory(cfg, s, NewCallAction(cfg, CallId(p.body.payload).value, p));
  }

  /** What a slot shares before and after a packet that is no message of its call. */
  ghost predicate Unnoted(a: Slot, b: Slot) {
    a.isUsed == b.isUsed && NotesOf(a) == NotesOf(b) && a.file == b.file
  }

  lemma ActionUnnoted(cfg: Config, s: State, a: Action)
    requires a.MediaIn? || a.FollowFragment?
    ensures var r := Apply(cfg, s, a);
            |r.table| == |s.table| && forall i :: 0 <= i < |s.table| ==> Unnoted(r.table[i], s.table[i])
  {
  }

  /** A packet that is no message changes no notes. */
  lemma NoMessageNotes(cfg: Config, s: State, p: Packet)
    requires MessageOf(cfg, s.table, p).None?
    ensures var r := OnPacket(cfg, s, p);
            |r.table| == |s.table| && forall i :: 0 <= i < |s.table| ==> Unnoted(r.table[i], s.table[i])
  {
    match p.body
    case Other =>
    case FollowOn(key, more) =>
      ActionUnnoted(cfg, s, FollowFragment(key, more));
    case Udp(_, _, _, _, _, _, _) =>
      var side := MediaSide(cfg, s.table, p.body);
      if side.Some? {
        ActionUnnoted(cfg, s, MediaAction(cfg, side.value.0, side.value.1, p));
      } else {
        NoMessageIs(cfg, s, p);
      }
  }

  lemma KnownMessageNotes(cfg: Config, s: State, p: Packet, i: nat)
    requires MessageOf(cfg, s.table, p) == Some(i) && !Starts(cfg, s.table, p)
    ensures var r := OnPacket(cfg, s, p);
            && OnlyIn(s, r, i) && s.table[i].isUsed && r.table[i].isUsed && r.table[i].file == s.table[i].file
            && NotesOf(r.table[i]) == Noted(cfg, NotesOf(s.table[i]), p.body)
  {
    MessageIs(cfg, s, p);
    OnCallNotes(cfg, s, i, p.body);
  }

  lemma FirstMessageNotes(cfg: Config, s: State, p: Packet, i: nat)
    requires Shaped(s) && Starts(cfg, s.table, p) && i == FreeSlot(s.table, 0)
    ensures var r := OnPacket(cfg, s, p);
            && i < |r.table| && r.table[i].isUsed && NotesOf(r.table[i]) == Noted(cfg, FRESH, p.body)
            && OthersFrom(s.table, r.table, i)
  {
    StartIs(cfg, s, p);
    ReadyNotes(cfg, s, p);
    FreshNotes(cfg, s.table, Ready(cfg, s, p), i, p.body);
  }

  lemma FreshNotes(cfg: Config, t: Table, s: State, i: nat, p: Body)
    requires p.Udp? && i < |s.table| && s.table[i].isUsed && NotesOf(s.table[i]) == FRESH
    requires OthersFrom(t, s.table, i)
    ensures var r := OnCall(cfg, s, i, p);
            && i < |r.table| && r.table[i].isUsed && NotesOf(r.table[i]) == Noted(cfg, FRESH, p)
            && OthersFrom(t, r.table, i)
  {
    OnCallNotes(cfg, s, i, p);
    OthersJoin(t, s, OnCall(cfg, s, i, p), i);
  }

  lemma OthersJoin(t: Table, s: State, r: State, i: nat)
    requires OthersFrom(t, s.table, i) && OnlyIn(s, r, i)
    ensures OthersFrom(t, r.table, i)
  {
  }

  lemma StartIs(cfg: Config, s: State, p: Packet)
    requires Starts(cfg, s.table, p)
    ensures OnPacket(cfg, s, p) == OnCall(cfg, Ready(cfg, s, p), FreeSlot(s.table, 0), p.body)
  {
    StartIsMessage(cfg, s.table, p);
    MessageIs(cfg, s, p);
  }

  lemma StartIsMessage(cfg: Config, t: Table, p: Packet)
    requires Starts(cfg, t, p)
    ensures MessageOf(cfg, t, p) == Some(FreeSlot(t, 0))
  {
  }

  // ---- over captures ----

  /** What the messages of the call in slot `i` have told since it was added. */
  ghost function Told(cfg: Config, ps: seq<Packet>, i: nat): Notes {
    if ps == [] then FRESH
    else
      var few, p := ps[..|ps| - 1], ps[|ps| - 1];
      var t := Before(cfg, few, p).table;
      if MessageOf(cfg, t, p) != Some(i) then Told(cfg, few, i)
      else Noted(cfg, if Starts(cfg, t, p) then FRESH else Told(cfg, few, i), p.body)
  }

  ghost predicate AllTold(cfg: Config, ps: seq<Packet>, t: Table) {
    forall i :: 0 <= i < |t| && t[i].isUsed ==> NotesOf(t[i]) == Told(cfg, ps, i)
  }

  lemma SweptIsTold(cfg: Config, ps: seq<Packet>, p: Packet)
    requires AllTold(cfg, ps, Run(cfg, ps).table)
    ensures AllTold(cfg, ps, Before(cfg, ps, p).table)
  {
  }

  lemma ToldOneMore(cfg: Config, ps: seq<Packet>, p: Packet, i: nat)
    ensures var t := Before(cfg, ps, p).table;
            Told(cfg, ps + [p], i) ==
            if MessageOf(cfg, t, p) != Some(i) then Told(cfg, ps, i)
            else Noted(cfg, if Starts(cfg, t, p) then FRESH else Told(cfg, ps, i), p.body)
  {
    assert (ps + [p])[..|ps + [p]| - 1] == ps;
  }

  lemma StepIsTold(cfg: Config, ps: seq<Packet>, p: Packet)
    requires AllTold(cfg, ps, Before(cfg, ps, p).table) && Shaped(Before(cfg, ps, p))
    ensures AllTold(cfg, ps + [p], OnPacket(cfg, Before(cfg, ps, p), p).table)
  {
    var s := Before(cfg, ps, p);
    var r := OnPacket(cfg, s, p);
    var m := MessageOf(cfg, s.table, p);
    if m.None? {
      NoMessageNotes(cfg, s, p);
    } else if Starts(cfg, s.table, p) {
      FirstMessageNotes(cfg, s, p, m.value);
    } else {
      KnownMessageNotes(cfg, s, p, m.value);
    }
    forall i | 0 <= i < |r.table| && r.table[i].isUsed
      ensures NotesOf(r.table[i]) == Told(cfg, ps + [p], i)
    {
      ToldOneMore(cfg, ps, p, i);
      if m.None? {
        assert Unnoted(r.table[i], s.table[i]);
      }
    }
  }

  lemma BeforeIsShaped(cfg: Config, ps: seq<Packet>, p: Packet)
    ensures Shaped(Before(cfg, ps, p))
  {
    RunShaped(cfg, ps);
    ShapeKept(cfg, Run(cfg, ps), Sweep(p.time));
  }

  lemma {:induction false} RunIsTold(cfg: Config, ps: seq<Packet>)
    ensures AllTold(cfg, ps, Run(cfg, ps).table)
    decreases |ps|
  {
    if ps != [] {
      var few, p := ps[..|ps| - 1], ps[|ps| - 1];
      RunIsTold(cfg, few);
      SweptIsTold(cfg, few, p);
      BeforeIsShaped(cfg, few, p);
      StepIsTold(cfg, few, p);
      StepIs(cfg, Run(cfg, few), p);
      assert few + [p] == ps;
    }
  }

  /** After any capture a used slot has ended, has had T.38, and looks for the telephone
      events of the number, exactly as the messages of its call have told since it was
      added. */
  lemma SlotsAreTold(cfg: Config, ps: seq<Packet>, i: nat)
    ensures var t := Run(cfg, ps).table;
            i < |t| && t[i].isUsed ==>
              && t[i].hadBye == Told(cfg, ps, i).ended
              && t[i].hadT38 == Told(cfg, ps, i).t38
              && t[i].rtpmapEvent == Told(cfg, ps, i).event
  {
    RunIsTold(cfg, ps);
  }

  // ---- what has been told, message by message ----

  /** Packet `n` of the capture is a message of the call in slot `i`. */
  ghost predicate MessageAt(cfg: Config, ps: seq<Packet>, n: nat, i: nat)
    requires n < |ps|
  {
    MessageOf(cfg, Before(cfg, ps[..n], ps[n]).table, ps[n]) == Some(i)
  }

  /** And it is the one with which the call was added. */
  ghost predicate StartAt(cfg: Config, ps: seq<Packet>, n: nat, i: nat)
    requires n < |ps|
  {
    MessageAt(cfg, ps, n, i) && Starts(cfg, Before(cfg, ps[..n], ps[n]).table, ps[n])
  }

  /** A flag that messages set and the start of a call clears. */
  ghost function Flag(message: nat -> bool, start: nat -> bool, says: nat -> bool, n: nat): bool {
    n > 0
    && if message(n - 1) then says(n - 1) || (!start(n - 1) && Flag(message, start, says, n - 1))
       else Flag(message, start, says, n - 1)
  }

  /** `m` is a message before `n`, and no call has started since. */
  ghost predicate Lasts(message: nat -> bool, start: nat -> bool, m: nat, n: nat) {
    m < n && message(m) && forall k :: m < k < n ==> !(message(k) && start(k))
  }

  /** It is set exactly when a message has set it since the last start. */
  lemma {:induction false} FlagIff(message: nat -> bool, start: nat -> bool, says: nat -> bool, n: nat)
    ensures Flag(message, start, says, n) <==> exists m: nat :: Lasts(message, start, m, n) && says(m)
  {
    if n > 0 {
      var l := n - 1;
      FlagIff(message, start, says, l);
      if message(l) && says(l) {
        assert Lasts(message, start, l, n);
      } else if Flag(message, start, says, n) {
        var m: nat :| Lasts(message, start, m, l) && says(m);
        assert Lasts(message, start, m, n);
      }
    }
  }

  /** The messages of the call in slot `i` as of packet `n`, and what they say. */
  ghost function Message(cfg: Config, ps: seq<Packet>, i: nat): nat -> bool {
    (n: nat) => n < |ps| && MessageAt(cfg, ps, n, i)
  }

  ghost function Start(cfg: Config, ps: seq<Packet>, i: nat): nat -> bool {
    (n: nat) => n < |ps| && StartAt(cfg, ps, n, i)
  }

  ghost function SayBye(ps: seq<Packet>): nat -> bool { (n: nat) => n < |ps| && SaysBye(ps[n].body) }

  ghost function SayT38(cfg: Config, ps: seq<Packet>): nat -> bool { (n: nat) => n < |ps| && SaysT38(cfg, ps[n].body) }

  ghost function Ended(cfg: Config, ps: seq<Packet>, i: nat): nat -> bool {
    (n: nat) => n <= |ps| && Told(cfg, ps[..n], i).ended
  }

  ghost function HadT38(cfg: Config, ps: seq<Packet>, i: nat): nat -> bool {
    (n: nat) => n <= |ps| && Told(cfg, ps[..n], i).t38
  }

  /** The flag's value after packet `n`. */
  ghost predicate Follows(message: nat -> bool, start: nat -> bool, says: nat -> bool, flag: nat -> bool, n: nat) {
    flag(n + 1) == if message(n) then says(n) || (!start(n) && flag(n)) else flag(n)
  }

  lemma {:induction false} FlagFollows(message: nat -> bool, start: nat -> bool, says: nat -> bool, flag: nat -> bool,
                                       n: nat)
    requires !flag(0) && forall m: nat :: m < n ==> Follows(message, start, says, flag, m)
    ensures flag(n) == Flag(message, start, says, n)
  {
    if n > 0 {
      FlagFollows(message, start, says, flag, n - 1);
      assert Follows(message, start, says, flag, n - 1);
    }
  }

  lemma ToldFollows(cfg: Config, ps: seq<Packet>, i: nat, n: nat)
    requires n < |ps|
    ensures Follows(Message(cfg, ps, i), Start(cfg, ps, i), SayBye(ps), Ended(cfg, ps, i), n)
    ensures Follows(Message(cfg, ps, i), Start(cfg, ps, i), SayT38(cfg, ps), HadT38(cfg, ps, i), n)
  {
    assert ps[..n + 1] == ps[..n] + [ps[n]];
    ToldOneMore(cfg, ps[..n], ps[n], i);
  }

  lemma ToldIsFlag(cfg: Config, ps: seq<Packet>, i: nat)
    ensures Told(cfg, ps, i).ended == Flag(Message(cfg, ps, i), Start(cfg, ps, i), SayBye(ps), |ps|)
    ensures Told(cfg, ps, i).t38 == Flag(Message(cfg, ps, i), Start(cfg, ps, i), SayT38(cfg, ps), |ps|)
  {
    forall n: nat | n < |ps|
      ensures Follows(Message(cfg, ps, i), Start(cfg, ps, i), SayBye(ps), Ended(cfg, ps, i), n)
      ensures Follows(Message(cfg, ps, i), Start(cfg, ps, i), SayT38(cfg, ps), HadT38(cfg, ps, i), n)
    {
      ToldFollows(cfg, ps, i, n);
    }
    assert ps[..|ps|] == ps;
    FlagFollows(Message(cfg, ps, i), Start(cfg, ps, i), SayBye(ps), Ended(cfg, ps, i), |ps|);
    FlagFollows(Message(cfg, ps, i), Start(cfg, ps, i), SayT38(cfg, ps), HadT38(cfg, ps, i), |ps|);
  }

  /** Packet `n` is a message of the call in slot `i`, since the call was added. */
  ghost predicate OfThisCall(cfg: Config, ps: seq<Packet>, n: nat, i: nat) {
    Lasts(Message(cfg, ps, i), Start(cfg, ps, i), n, |ps|)
  }

  /** After any capture a used slot has ended if and only if one of its call's messages
      since the call was added was a BYE, and has had T.38 if and only if T.38 is looked
      for and the parsed body of one of them named it. */
  lemma EndedIffBye(cfg: Config, ps: seq<Packet>, i: nat)
    requires i < |Run(cfg, ps).table| && Run(cfg, ps).table[i].isUsed
    ensures Run(cfg, ps).table[i].hadBye <==> exists n: nat :: OfThisCall(cfg, ps, n, i) && SayBye(ps)(n)
    ensures Run(cfg, ps).table[i].hadT38 <==> exists n: nat :: OfThisCall(cfg, ps, n, i) && SayT38(cfg, ps)(n)
  {
    SlotsAreTold(cfg, ps, i);
    ToldIsFlag(cfg, ps, i);
    BothFlags(cfg, ps, Message(cfg, ps, i), Start(cfg, ps, i));
  }

  lemma BothFlags(cfg: Config, ps: seq<Packet>, message: nat -> bool, start: nat -> bool)
    ensures Flag(message, start, SayBye(ps), |ps|) <==>
            exists n: nat :: Lasts(message, start, n, |ps|) && SayBye(ps)(n)
    ensures Flag(message, start, SayT38(cfg, ps), |ps|) <==>
            exists n: nat :: Lasts(message, start, n, |ps|) && SayT38(cfg, ps)(n)
  {
    FlagIff(message, start, SayBye(ps), |ps|);
    FlagIff(message, start, SayT38(cfg, ps), |ps|);
  }
}
