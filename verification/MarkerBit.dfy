/** The filter for telephone events compares the whole second byte of a packet, as a
    signed number, with the announced payload type: the marker bit is part of it. */
module MarkerBit {
  import opened Slots
  import opened Machine
  import opened Captures
  import opened SsrcSticky
  import opened MediaSteps

  function Byte(c: char): nat { c as int % 256 }

  /** The payload type proper: the second byte without its marker bit. */
  function PayloadType(c: char): nat { Byte(c) % 128 }

  predicate Marked(c: char) { Byte(c) >= 128 }

  /** A packet of a call with a file is recorded if and only if its second byte is below
      128 and is the announced payload type. */
  lemma RecordedByByteIff(cfg: Config, slot: Slot, c: char)
    requires cfg.rtpSave == SaveRtpEvent && slot.file != 0
    ensures Records(cfg, slot, SignedByte(c)) <==> Byte(c) < 128 && Byte(c) == slot.rtpmapEvent
  {
  }

  /** So a packet of the announced payload type is picked out if and only if its marker
      bit is clear. */
  lemma PickedOutIff(cfg: Config, slot: Slot, c: char)
    requires cfg.rtpSave == SaveRtpEvent && slot.file != 0 && PayloadType(c) == slot.rtpmapEvent
    ensures Records(cfg, slot, SignedByte(c)) <==> !Marked(c)
  {
    RecordedByByteIff(cfg, slot, c);
  }

  lemma MarkedRecordsNothing(cfg: Config, s: State, p: Packet, a: Action, e: Event)
    requires cfg.rtpSave == SaveRtpEvent && ByAddress(cfg, p, a) && Marked(Seen(p.body)[1])
    requires e in EventsOf(cfg, s, a)
    ensures e.Attributed?
  {
    assert a.secondByte < 0;
  }

  lemma MarkedIsAttributedOnly(cfg: Config, s: State, p: Packet, more: seq<Event>)
    requires cfg.rtpSave == SaveRtpEvent && p.body.Udp? && Marked(Seen(p.body)[1])
    requires FromMediaAction(cfg, s, p, more)
    ensures forall e :: e in more && IsMediaEvent(e) ==> e.Attributed?
  {
    if !NoMediaEvents(more) {
      var a :| ByAddress(cfg, p, a) && forall e :: e in more && IsMediaEvent(e) ==> e in EventsOf(cfg, s, a);
      forall e | e in more && IsMediaEvent(e)
        ensures e.Attributed?
      {
        MarkedRecordsNothing(cfg, s, p, a, e);
      }
    }
  }

  /** In that mode no packet with its marker bit set is recorded, in any capture. */
  lemma MarkedIsNotRecorded(cfg: Config, ps: seq<Packet>, p: Packet)
    requires cfg.rtpSave == SaveRtpEvent && p.body.Udp? && Marked(Seen(p.body)[1])
    ensures Run(cfg, ps).log <= Run(cfg, ps + [p]).log
    ensures forall e :: e in Since(Run(cfg, ps), Run(cfg, ps + [p])) ==>
              !e.Recorded? && !(e.Wrote? && e.via == Media)
  {
    var s, s1 := Run(cfg, ps), Before(cfg, ps, p);
    assert (ps + [p])[..|ps + [p]| - 1] == ps;
    StepMediaEvents(cfg, s, p);
    MarkedIsAttributedOnly(cfg, s1, p, Since(s, Run(cfg, ps + [p])));
  }
}
