/**
 The adaptive heartbeat of client/keepalive.go on an idle link: the client sends nothing
 but probes and pings, and the server nothing but answers.
 */
module AdaptiveIdle {
  import opened Wrappers
  import opened Adaptive
  import opened AdaptiveRuns

  /** No PUSHes; a packet arrives only while an answer is awaited, and within `delay` ms of what it answers. */
  predicate Idle(cfg: Config, kp: int, delay: int, l: Link, run: seq<Event>)
    requires ValidRun(cfg, kp, l, run)
    decreases |run|
  {
    run == [] ||
    (&& !run[0].Push?
     && (run[0].Receive? ==> l.m.awaiting && l.now - l.lastSent <= delay)
     && Idle(cfg, kp, delay, Happen(cfg, kp, l, run[0]), run[1..]))
  }

  /** A tick of the stable phase sends a ping. */
  predicate StablePing(cfg: Config, l: Link) {
    l.m.phase == Stable && TickOf(cfg, l.m, l.now, l.lastSent, l.lastReceived).1
  }

  /** A tick at which a ping of the stable phase would be due. */
  predicate PingDue(l: Link) {
    l.m.phase == Stable && l.now - l.lastSent >= l.m.successHeart
  }

  /** The last reception answers the packet before the one that is unanswered. */
  predicate Stale(delay: int, l: Link) {
    l.lastReceived <= l.lastSent - l.m.interval + delay
  }

  /** What is known of the last reception; below the ceiling a stable phase begins with an unanswered probe. */
  predicate IdleInv(cfg: Config, delay: int, l: Link) {
    && l.nextTick - TICK <= l.now <= l.nextTick && l.lastSent <= l.now && l.lastReceived <= l.lastSent + delay
    && match l.m.phase
       case Stable =>
         l.m.lastSuccess != cfg.ceiling ==>
           !l.m.awaiting && Stale(delay, l) && cfg.short <= l.m.successHeart <= l.m.interval
       case Lost => true
       case _ =>
         l.m.awaiting ==> l.m.sentAt == Some(l.lastSent) && (l.lastReceived < l.lastSent ==> Stale(delay, l))
  }

  lemma IdleTick(cfg: Config, kp: int, delay: int, l: Link)
    requires ValidConfig(cfg) && 0 <= delay && 2 * delay <= cfg.short
    requires ShapeInv(cfg, l.m, l.probes) && IdleInv(cfg, delay, l) && Can(l, Tick)
    ensures IdleInv(cfg, delay, Ticked(cfg, kp, l))
    ensures l.m.phase == Stable && l.m.lastSuccess != cfg.ceiling ==> !StablePing(cfg, l)
    ensures PingDue(l) && l.m.lastSuccess != cfg.ceiling ==> Ticked(cfg, kp, l).m == Start(cfg)
  {
    if l.m.phase == ProbeDoubling {
      IdleDoubling(cfg, kp, delay, l);
    } else if l.m.phase == Stable {
      IdleStable(cfg, kp, delay, l);
    }
  }

  lemma IdleDoubling(cfg: Config, kp: int, delay: int, l: Link)
    requires ValidConfig(cfg) && 0 <= delay && l.m.phase == ProbeDoubling
    requires ShapeInv(cfg, l.m, l.probes) && IdleInv(cfg, delay, l) && Can(l, Tick)
    ensures IdleInv(cfg, delay, Ticked(cfg, kp, l))
  {
    ShapeBounds(cfg, l.m, l.probes);
    IntervalFacts(cfg, Answered(l.m, l.probes));
  }

  lemma IdleStable(cfg: Config, kp: int, delay: int, l: Link)
    requires ValidConfig(cfg) && 0 <= delay && 2 * delay <= cfg.short && l.m.phase == Stable
    requires IdleInv(cfg, delay, l) && Can(l, Tick)
    ensures IdleInv(cfg, delay, Ticked(cfg, kp, l))
    ensures l.m.lastSuccess != cfg.ceiling ==> !StablePing(cfg, l)
    ensures PingDue(l) && l.m.lastSuccess != cfg.ceiling ==> Ticked(cfg, kp, l).m == Start(cfg)
  {
  }

  lemma {:induction false} IdleRun(cfg: Config, kp: int, delay: int, l: Link, run: seq<Event>)
    requires ValidConfig(cfg) && 0 <= delay && 2 * delay <= cfg.short
    requires ShapeInv(cfg, l.m, l.probes) && IdleInv(cfg, delay, l)
    requires ValidRun(cfg, kp, l, run) && Idle(cfg, kp, delay, l, run)
    ensures var l' := End(cfg, kp, l, run);
            ShapeInv(cfg, l'.m, l'.probes) && IdleInv(cfg, delay, l')
    decreases |run|
  {
    if run != [] {
      if run[0].Tick? {
        IdleTick(cfg, kp, delay, l);
        ShapeTick(cfg, kp, l);
      }
      IdleRun(cfg, kp, delay, Happen(cfg, kp, l, run[0]), run[1..]);
    }
  }

  /**
   On an idle link that answers within half the short period, an interval settled on
   below the ceiling is never used: no tick of such a stable phase sends a ping, because
   the time since the last reception, which the failed probe has already stretched, starts
   the search anew by the time one is due.
   */
  lemma UnusedBelowCeiling(cfg: Config, kp: int, delay: int, start: int, run: seq<Event>)
    requires ValidConfig(cfg) && 0 <= delay && 2 * delay <= cfg.short
    requires ValidRun(cfg, kp, Begin(cfg, kp, start), run) && Idle(cfg, kp, delay, Begin(cfg, kp, start), run)
    ensures var l := End(cfg, kp, Begin(cfg, kp, start), run);
            Can(l, Tick) && l.m.phase == Stable && l.m.lastSuccess != cfg.ceiling ==>
              !StablePing(cfg, l) && (PingDue(l) ==> Ticked(cfg, kp, l).m == Start(cfg))
  {
    IdleRun(cfg, kp, delay, Begin(cfg, kp, start), run);
    var l := End(cfg, kp, Begin(cfg, kp, start), run);
    if Can(l, Tick) {
      IdleTick(cfg, kp, delay, l);
    }
  }
}
