/**
 The keepalive negotiated at CONNECT (server/keepalive.go) and what it means for the
 client's heartbeat loop (client/keepalive.go). Seconds are assumed to fit the 16-bit
 fields that carry them.
 */
module KeepaliveNegotiation {
  import opened Adaptive
  import opened AdaptiveRuns
  import opened AdaptiveReaping
  import opened FixedHeartbeat

  datatype Policy = Policy(min: int, max: int, default: int, allowDisable: bool)

  const DEFAULT_POLICY := Policy(30, 600, 60, false)

  function Distance(a: int, b: int): int { if a < b then b - a else a - b }

  /** Maps the client's proposal to the keepalive echoed in CONNACK. */
  function Decide(p: Policy, proposal: int): (kp: int)
    ensures proposal > 0 && p.min <= p.max ==>
              && p.min <= kp <= p.max
              && forall v :: p.min <= v <= p.max ==> Distance(kp, proposal) <= Distance(v, proposal)
    ensures p.min > 0 && p.max > 0 && p.default > 0 ==> (kp == 0 <==> proposal <= 0 && p.allowDisable)
    ensures proposal <= 0 && !p.allowDisable ==> kp == p.default
  {
    if proposal <= 0 then
      if p.allowDisable then 0 else p.default
    else if proposal < p.min then p.min
    else if proposal > p.max then p.max
    else proposal
  }

  /** How a client keeps its connection alive; a fixed heartbeat is in seconds, and zero turns it off. An adapting client has one too, unused. */
  datatype Heartbeat = Adapting(o: Options, own: int) | Fixed(seconds: int)

  /** The keepalive a client asks for in CONNECT. */
  function Proposal(h: Heartbeat): int {
    match h
    case Adapting(o, _) => o.max
    case Fixed(seconds) => seconds
  }

  /** Does a client without a loop, which sends nothing but PUSHes, pass the deadline of the server? */
  predicate SilentReaped(kp: int, now: int, deadline: int, run: seq<Event>)
    decreases |run|
  {
    run != [] &&
    match run[0]
    case Pass(d) => now + d >= deadline || SilentReaped(kp, now + d, deadline, run[1..])
    case Push => SilentReaped(kp, now, now + ReapAfter(kp), run[1..])
    case _ => SilentReaped(kp, now, deadline, run[1..])
  }

  predicate SilentRunReaped(kp: int, start: int, run: seq<Event>) {
    SilentReaped(kp, start, start + ReapAfter(kp), run)
  }

  ghost predicate NoSilentRunReaped(kp: int, start: int) {
    forall run :: !SilentRunReaped(kp, start, run)
  }

  lemma SilenceReaped(kp: int, start: int)
    requires kp > 0
    ensures !NoSilentRunReaped(kp, start)
  {
    assert SilentRunReaped(kp, start, [Pass(ReapAfter(kp))]);
  }

  /** No run of the client under keepalive `kp` is reaped; for zero the server arms no timer. */
  ghost predicate ClientSafe(h: Heartbeat, kp: int, start: int) {
    kp > 0 ==>
      match h
      case Fixed(seconds) => if seconds == 0 then NoSilentRunReaped(kp, start) else NoBothRunReaped(kp, seconds, start)
      case Adapting(o, own) =>
        match Configure(o, kp)
        case Disabled => true
        case FixedCadence => NoBothRunReaped(kp, own, start)
        case Probing(cfg) => NoRunReaped(cfg, kp, start)
  }

  /** The response window in force. */
  function WindowOf(o: Options): int {
    if o.window <= 0 then 2000 else o.window
  }

  /**
   Whatever the client's heartbeat and the server's policy, the client is safe from the
   reaper if and only if keepalive is off, or it probes with a window of at most
   1.5 * kp seconds less 750 ms, or it pings on a fixed cadence that is not one second.
   A client that has turned its heartbeat off is safe only if the server agrees.
   */
  lemma NegotiatedSafety(h: Heartbeat, p: Policy, start: int)
    ensures var kp := Decide(p, Proposal(h));
            ClientSafe(h, kp, start) <==>
            || kp <= 0
            || match h
               case Fixed(seconds) => seconds != 0 && kp != 1
               case Adapting(o, _) =>
                 if Configure(o, kp).Probing? then WindowOf(o) <= ReapAfter(kp) - 3 * TICK else kp != 1
  {
    var kp := Decide(p, Proposal(h));
    if kp > 0 {
      NegotiatedNeverReapedExactly(kp, if h.Fixed? then h.seconds else h.own, start);
      SilenceReaped(kp, start);
      if h.Adapting? && Configure(h.o, kp).Probing? {
        NeverReapedExactly(Configure(h.o, kp).cfg, kp, start);
      }
    }
  }

  /** Under the default policy, and with a window of at most 44.25 s, all clients are safe but those without a heartbeat. */
  lemma DefaultPolicySafe(h: Heartbeat, start: int)
    requires h.Adapting? ==> WindowOf(h.o) <= 44250
    ensures ClientSafe(h, Decide(DEFAULT_POLICY, Proposal(h)), start) <==> h != Fixed(0)
  {
    NegotiatedSafety(h, DEFAULT_POLICY, start);
  }

  /** A client whose wish lies within the policy gets it: its heartbeat, or room to probe up to its maximum. */
  lemma ProposalHonoured(h: Heartbeat, p: Policy)
    requires p.min <= Proposal(h) <= p.max && Proposal(h) > 0
    ensures h.Fixed? ==> Decide(p, Proposal(h)) == h.seconds
    ensures h.Adapting? && h.o.max > Max(h.o.short, 1) && p.min <= h.o.max <= p.max ==>
              var setup := Configure(h.o, Decide(p, Proposal(h)));
              setup.Probing? && setup.cfg.ceiling == 1000 * h.o.max
  {
  }
}
