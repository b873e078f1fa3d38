/** What a BYE does, from the packets: it ends its call, and from then on the call's
    flows take no SSRC but the one they have. */
module EndedCalls {
  import opened Text
  import opened Slots
  import opened Machine
  import opened Captures
  import opened SsrcSticky
  import opened WholeRuns
  import opened Dispatchers
  import opened Messages
  import opened MediaSteps

  /** The packet is a BYE of the call in slot `i`. */
  ghost predicate Ends(cfg: Config, ps: seq<Packet>, p: Packet, i: nat) {
    MessageOf(cfg, Before(cfg, ps, p).table, p) == Some(i) && SaysBye(p.body)
  }

  /** A BYE ends its call, at any point of any capture. */
  lemma ByeEndsCall(cfg: Config, ps: seq<Packet>, p: Packet, i: nat)
    requires Ends(cfg, ps, p, i)
    ensures var t := Run(cfg, ps + [p]).table; i < |t| && t[i].isUsed && t[i].hadBye
  {
    var s := Before(cfg, ps, p);
    BeforeIsShaped(cfg, ps, p);
    assert (ps + [p])[..|ps + [p]| - 1] == ps;
    StepIs(cfg, Run(cfg, ps), p);
    if Starts(cfg, s.table, p) {
      FirstMessageNotes(cfg, s, p, i);
    } else {
      KnownMessageNotes(cfg, s, p, i);
    }
  }

  /** What `more` attributes to flow (i, k) has the SSRC `ssrc`. */
  ghost predicate OnlySsrc(more: seq<Event>, i: nat, k: nat, ssrc: Ssrc) {
    forall e :: e in more && e.Attributed? && e.slot == i && e.flow == k ==> e.ssrc == ssrc
  }

  lemma MediaKeepsSsrc(cfg: Config, s: State, p: Packet, more: seq<Event>, i: nat, k: nat)
    requires i < |s.table| && k < MAX_FLOWS && s.table[i].hadBye && FromMediaAction(cfg, s, p, more)
    ensures OnlySsrc(more, i, k, s.table[i].ssrc[k])
  {
    if !NoMediaEvents(more) {
      var a :| ByAddress(cfg, p, a) && forall e :: e in more && IsMediaEvent(e) ==> e in EventsOf(cfg, s, a);
      forall e | e in more && e.Attributed? && e.slot == i && e.flow == k
        ensures e.ssrc == s.table[i].ssrc[k]
      {
        assert e == Attributed(i, k, e.ssrc);
        NoForeignSsrc(cfg, s, a, i, k, e.ssrc);
      }
    }
  }

  /** An ended slot that the next sweep does not expire. */
  lemma StepKeepsSsrc(cfg: Config, s: State, p: Packet, i: nat, k: nat)
    requires i < |s.table| && k < MAX_FLOWS && s.table[i].hadBye
    requires !(SweepDue(s, p.time) && Expires(s.table[i], p.time, cfg.limit))
    ensures s.log <= Step(cfg, s, p).log && OnlySsrc(Since(s, Step(cfg, s, p)), i, k, s.table[i].ssrc[k])
  {
    var s1 := SweepFirst(cfg, s, p.time);
    assert s1.table[i] == s.table[i];
    StepMediaEvents(cfg, s, p);
    MediaKeepsSsrc(cfg, s1, p, Since(s, Step(cfg, s, p)), i, k);
  }

  /** After a BYE of the call in slot `i`, and through any further packets that do not
      expire it, the next packet is attributed to a flow the call had then only if it
      has that flow's SSRC. */
  lemma ByeShutsOutForeignMedia(cfg: Config, ps: seq<Packet>, p: Packet, more: seq<Packet>, q: Packet, i: nat, k: nat)
    requires Ends(cfg, ps, p, i) && k < MAX_FLOWS
    ensures var s0, s, r := Run(cfg, ps + [p]), Run(cfg, ps + [p] + more), Run(cfg, ps + [p] + more + [q]);
            && s0.log <= s.log <= r.log && i < |s0.table|
            && (k < s0.table[i].ipN && Expired(i) !in Since(s0, r) ==>
                  OnlySsrc(Since(s, r), i, k, s0.table[i].ssrc[k]))
  {
    var s0, s := Run(cfg, ps + [p]), Run(cfg, ps + [p] + more);
    var r := Run(cfg, ps + [p] + more + [q]);
    ByeEndsCall(cfg, ps, p, i);
    EndedCallIsFrozen(cfg, ps + [p], i, more);
    RunsJoin(cfg, Init(), ps + [p], more);
    assert (ps + [p] + more + [q])[..|ps + [p] + more + [q]| - 1] == ps + [p] + more;
    StepExpiresIff(cfg, s, q, i);
    SinceJoins(s0, s, r);
    if k < s0.table[i].ipN && Expired(i) !in Since(s0, r) {
      assert Frozen(s0.table[i], s.table[i]);
      StepKeepsSsrc(cfg, s, q, i, k);
    }
  }
}
