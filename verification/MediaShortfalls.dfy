/** Media that is not recorded, although its call announced it. */
module MediaShortfalls {
  import opened Text
  import opened HeaderList
  import opened Sip
  import opened SdpBodies
  import opened Slots
  import opened Machine
  import opened Captures
  import opened SsrcSticky
  import opened CallStory
  import opened OddPorts
  import opened MarkerBit
  import opened Shortfalls

  // ---- an odd port ----

  /** A capture's first packet starts a recorded call and announces a pair with an odd
      port. */
  predicate AnnouncesOdd(cfg: Config, p: Packet, q: Request) {
    && StartsRecorded(cfg, p, q) && BodyReadable(q)
    && AnnouncedBy(cfg, q).Some? && Odd(AnnouncedBy(cfg, q).value.1)
  }

  /** The call tracks that pair and has a file, and a packet sent to the pair soon after
      is not attributed to it. */
  lemma OddPairIsLost(cfg: Config, p: Packet, q: Request, late: Packet)
    requires cfg.rtpSave == SaveRtpRtcp && AnnouncesOdd(cfg, p, q)
    requires late.body.Udp? && (late.body.dst, late.body.dstPort) == AnnouncedBy(cfg, q).value
    requires late.time - p.time <= IDLE_LIMIT && late.time - p.time <= cfg.limit
    ensures var t := Before(cfg, [p], late).table;
            |t| > 0 && t[0].isUsed && t[0].file == 1 && Tracks(t[0], 0, late.body.dst, late.body.dstPort)
    ensures Run(cfg, [p]).log <= Run(cfg, [p, late]).log
    ensures forall e :: e in Since(Run(cfg, [p]), Run(cfg, [p, late])) && e.Attributed? ==> (e.slot, e.flow) != (0, 0)
  {
    var s, s1 := Run(cfg, [p]), Before(cfg, [p], late);
    FirstRecordIs(cfg, p, q);
    assert s.table[0].lastTime == s.table[0].firstTime == p.time by {
      assert RecordOf(s.table[0]) == ExpectedRecord(cfg, Before(cfg, [], p), p, q);
    }
    assert !Expires(s.table[0], late.time, cfg.limit);
    assert s1.table[0] == s.table[0];
    assert [p] + [late] == [p, late];
    NoOddAttribution(cfg, [p], late);
  }

  /** In the default mode, a body announces the odd port 4001. */
  function OddMedia(): Config { RecordAll().(rtpSave := SaveRtpRtcp, media := _ => Some((7, 4001))) }

  const TO_ODD := Packet(2, true, Udp(8, 4000, 7, 4001, "", Nuls(LEAST_PAYLOAD), None))

  lemma {:induction false} RenderHasNoNul(hs: seq<Header>)
    requires forall h :: h in hs ==> NUL !in h.name && NUL !in h.value
    ensures NUL !in Render(hs)
  {
    if hs != [] {
      RenderHasNoNul(hs[1..]);
      assert NUL !in Line(hs[0]);
    }
  }

  lemma InviteHeadHasNoNul()
    ensures NUL !in Head(INVITE.startLine, INVITE.hs)
  {
    forall h | h in HEADERS
      ensures NUL !in h.name && NUL !in h.value
    {
      HeadersArePlain(h);
    }
    RenderHasNoNul(HEADERS);
  }

  lemma InviteIsReadable()
    ensures BodyReadable(INVITE)
  {
    InviteHeadHasNoNul();
    StartsOtherwise("INVITE b", Tag("Content-Type"));
    StartsOtherwise("INVITE b", Tag("c"));
  }

  lemma InviteAnnouncesOdd()
    ensures AnnouncedBy(OddMedia(), INVITE) == Some((7, 4001))
  {
    HeadersAreFound();
    ParametersHideSdp("x");
    assert ContentType(HEADERS) == Some(SDP_TYPE);
  }

  /** There is such a capture. */
  lemma OddPairIsLostExists()
    ensures var t := Before(OddMedia(), [FIRST], TO_ODD).table;
            |t| > 0 && Tracks(t[0], 0, 7, 4001) && t[0].file == 1
    ensures Run(OddMedia(), [FIRST]).log <= Run(OddMedia(), [FIRST, TO_ODD]).log
    ensures forall e :: e in Since(Run(OddMedia(), [FIRST]), Run(OddMedia(), [FIRST, TO_ODD])) && e.Attributed? ==>
              (e.slot, e.flow) != (0, 0)
  {
    InviteIsRendered();
    InviteIsSip();
    InviteIsReadable();
    InviteAnnouncesOdd();
    OddPairIsLost(OddMedia(), FIRST, INVITE, TO_ODD);
  }

  // ---- the marker bit ----

  /** Of two packets of the announced payload type 101 the one whose marker bit is set,
      like the first of a telephone event, is not recorded. */
  lemma MarkedEventIsLost(cfg: Config, slot: Slot)
    requires cfg.rtpSave == SaveRtpEvent && slot.file != 0 && slot.rtpmapEvent == 101
    ensures PayloadType(101 as char) == PayloadType(229 as char) == 101
    ensures Records(cfg, slot, SignedByte(101 as char)) && !Records(cfg, slot, SignedByte(229 as char))
  {
    PickedOutIff(cfg, slot, 101 as char);
    PickedOutIff(cfg, slot, 229 as char);
  }
}
