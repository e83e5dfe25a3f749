/**
 Runs of the adaptive heartbeat against the keepalive reaper of the server
 (server/server.go). The loop ticks every 250 ms exactly and packets take no time;
 between ticks the client may send PUSH packets and receive packets at any moment.
 */
module AdaptiveRuns {
  import opened Wrappers
  import opened Adaptive

  const TICK := 250

  /** The server reaps a client it has not heard from for one and a half times the keepalive. */
  function ReapAfter(kp: int): int { 1500 * kp }

  /**
   `deadline` is when the server's timer fires. `probes` counts the probes sent in
   the doubling phase since it was last entered.
   */
  datatype Link = Link(
    m: Machine,
    now: int,
    nextTick: int,
    lastSent: int,
    lastReceived: int,
    deadline: int,
    reaped: bool,
    probes: nat)

  datatype Event = Pass(millis: nat) | Push | Receive | Tick

  function Begin(cfg: Config, kp: int, start: int): Link {
    Link(Start(cfg), start, start + TICK, start, start, start + ReapAfter(kp), false, 0)
  }

  predicate Can(l: Link, e: Event) {
    l.m.phase != Lost &&
    match e
    case Pass(d) => l.now + d <= l.nextTick
    case Tick => l.now == l.nextTick
    case _ => true
  }

  function Sent(l: Link, kp: int): Link {
    l.(lastSent := l.now, deadline := l.now + ReapAfter(kp))
  }

  function Ticked(cfg: Config, kp: int, l: Link): Link {
    var (m, probe) := TickOf(cfg, l.m, l.now, l.lastSent, l.lastReceived);
    var l' := l.(m := m, nextTick := l.nextTick + TICK,
                 probes := if l.m.phase == ProbeDoubling then l.probes + (if probe then 1 else 0)
                           else if m.phase == ProbeDoubling then 0 else l.probes);
    if probe then Sent(l', kp) else l'
  }

  function Happen(cfg: Config, kp: int, l: Link, e: Event): Link
    requires Can(l, e)
  {
    match e
    case Pass(d) => l.(now := l.now + d, reaped := l.reaped || l.now + d >= l.deadline)
    case Push => Sent(l, kp)
    case Receive => l.(lastReceived := l.now)
    case Tick => Ticked(cfg, kp, l)
  }

  predicate ValidRun(cfg: Config, kp: int, l: Link, run: seq<Event>)
    decreases |run|
  {
    run == [] || (Can(l, run[0]) && ValidRun(cfg, kp, Happen(cfg, kp, l, run[0]), run[1..]))
  }

  function End(cfg: Config, kp: int, l: Link, run: seq<Event>): Link
    requires ValidRun(cfg, kp, l, run)
    decreases |run|
  {
    if run == [] then l else End(cfg, kp, Happen(cfg, kp, l, run[0]), run[1..])
  }

  // ---------- the shape of the probing phases ----------

  /** The short period, doubled j times. */
  function Doubled(short: int, j: nat): int {
    if j == 0 then short else 2 * Doubled(short, j - 1)
  }

  /** The interval probed after j successful doublings. */
  function IntervalAt(cfg: Config, j: nat): int {
    Min(Doubled(cfg.short, j), cfg.ceiling)
  }

  /** Doubling probes answered so far. */
  function Answered(m: Machine, probes: nat): int {
    if m.awaiting then probes - 1 else probes
  }

  predicate ShapeInv(cfg: Config, m: Machine, probes: nat) {
    match m.phase
    case ProbeShort => m.interval == cfg.short && m.shortOk < cfg.probeCount && (m.awaiting ==> m.sentAt.Some?)
    case ProbeDoubling =>
      var j := Answered(m, probes);
      && j >= 0
      && m.interval == IntervalAt(cfg, j)
      && m.lastSuccess == (if j == 0 then cfg.short else IntervalAt(cfg, j - 1))
      && (j > 0 ==> Doubled(cfg.short, j - 1) < cfg.ceiling)
      && (m.awaiting ==> m.sentAt.Some?)
    case ProbeFine => false
    case Stable =>
      && m.successHeart == SettledHeart(cfg, m.lastSuccess)
      && cfg.short <= m.lastSuccess <= cfg.ceiling
      && probes > 0
      && (probes > 1 ==> Doubled(cfg.short, probes - 2) < cfg.ceiling)
    case Lost => true
  }

  lemma {:induction false} DoubledGrows(short: int, j: nat)
    requires short > 0
    ensures short <= Doubled(short, j) < Doubled(short, j + 1)
  {
    if j > 0 {
      DoubledGrows(short, j - 1);
    }
  }

  lemma IntervalFacts(cfg: Config, j: nat)
    requires ValidConfig(cfg)
    ensures IntervalAt(cfg, 0) == cfg.short
    ensures cfg.short <= IntervalAt(cfg, j) <= IntervalAt(cfg, j + 1) <= cfg.ceiling
    ensures IntervalAt(cfg, j + 1) == Min(2 * IntervalAt(cfg, j), cfg.ceiling)
    ensures IntervalAt(cfg, j + 1) <= IntervalAt(cfg, j) <==> Doubled(cfg.short, j) >= cfg.ceiling
  {
    DoubledGrows(cfg.short, j);
  }

  predicate Bounded(cfg: Config, m: Machine) {
    match m.phase
    case ProbeShort => m.interval == cfg.short
    case ProbeDoubling => cfg.short <= m.lastSuccess <= m.interval <= Min(2 * m.lastSuccess, cfg.ceiling)
    case ProbeFine => false
    case Stable => cfg.short <= m.successHeart < cfg.ceiling
    case Lost => true
  }

  lemma ShapeBounds(cfg: Config, m: Machine, probes: nat)
    requires ValidConfig(cfg) && ShapeInv(cfg, m, probes)
    ensures Bounded(cfg, m)
  {
    IntervalFacts(cfg, 0);
    if m.phase == ProbeDoubling && Answered(m, probes) > 0 {
      IntervalFacts(cfg, Answered(m, probes) - 1);
    }
  }

  lemma ShapeTickDoubling(cfg: Config, kp: int, l: Link)
    requires ValidConfig(cfg) && ShapeInv(cfg, l.m, l.probes) && l.m.phase == ProbeDoubling
    ensures ShapeInv(cfg, Ticked(cfg, kp, l).m, Ticked(cfg, kp, l).probes)
  {
    var j, l' := Answered(l.m, l.probes), Ticked(cfg, kp, l);
    ShapeBounds(cfg, l.m, l.probes);
    if l.m.awaiting && GotResponse(l.m, l.lastReceived) {
      IntervalFacts(cfg, j);
      assert l'.probes == j + 1 && l'.m.lastSuccess == IntervalAt(cfg, j);
    } else {
      assert l'.m.phase == ProbeDoubling ==> Answered(l'.m, l'.probes) == j;
    }
  }

  lemma ShapeTick(cfg: Config, kp: int, l: Link)
    requires ValidConfig(cfg) && ShapeInv(cfg, l.m, l.probes)
    ensures ShapeInv(cfg, Ticked(cfg, kp, l).m, Ticked(cfg, kp, l).probes)
  {
    if l.m.phase == ProbeDoubling {
      ShapeTickDoubling(cfg, kp, l);
    }
  }

  lemma {:induction false} ShapeRun(cfg: Config, kp: int, l: Link, run: seq<Event>)
    requires ValidConfig(cfg) && ShapeInv(cfg, l.m, l.probes) && ValidRun(cfg, kp, l, run)
    ensures ShapeInv(cfg, End(cfg, kp, l, run).m, End(cfg, kp, l, run).probes)
    decreases |run|
  {
    if run != [] {
      if run[0].Tick? {
        ShapeTick(cfg, kp, l);
      }
      ShapeRun(cfg, kp, Happen(cfg, kp, l, run[0]), run[1..]);
    }
  }

  /**
   What holds in every run, whatever is sent and received: the fine-tuning phase is
   never entered; a doubling probe lies between the last interval that worked and
   its double, within the ceiling; a stable interval lies between the short period
   and the ceiling.
   */
  lemma PhasesBounded(cfg: Config, kp: int, start: int, run: seq<Event>)
    requires ValidConfig(cfg) && ValidRun(cfg, kp, Begin(cfg, kp, start), run)
    ensures Bounded(cfg, End(cfg, kp, Begin(cfg, kp, start), run).m)
  {
    ShapeRun(cfg, kp, Begin(cfg, kp, start), run);
    var l := End(cfg, kp, Begin(cfg, kp, start), run);
    ShapeBounds(cfg, l.m, l.probes);
  }

  /** An answered doubling probe narrows the distance to the ceiling or ends the search there. */
  lemma DoublingAdvances(cfg: Config, kp: int, l: Link)
    requires ValidConfig(cfg) && ShapeInv(cfg, l.m, l.probes) && Can(l, Tick)
    requires l.m.phase == ProbeDoubling && l.m.awaiting && GotResponse(l.m, l.lastReceived)
    ensures var m := Ticked(cfg, kp, l).m;
            || (m.phase == ProbeDoubling && m.lastSuccess == l.m.interval < m.interval <= cfg.ceiling)
            || (m.phase == Stable && m.lastSuccess == l.m.interval == cfg.ceiling)
  {
    IntervalFacts(cfg, Answered(l.m, l.probes));
  }

  // ---------- the server never reaps the client ----------

  /** Whatever the phase, a ping is remembered as awaited from now on; a stable phase begins with nothing awaited. */
  lemma PingsRemembered(cfg: Config, m: Machine, now: int, lastSent: int, lastReceived: int)
    ensures var (m', ping) := TickOf(cfg, m, now, lastSent, lastReceived);
            && (ping ==> m'.awaiting && m'.sentAt == Some(now) && m'.phase == m.phase)
            && (m'.phase == Stable != m.phase ==> !ping && !m'.awaiting && m'.sentAt == None)
  {
  }

  /** The fine-tuning phase, were it ever entered, would know no ceiling: an answered probe always raises the interval by the fine step. */
  lemma FineKnowsNoCeiling(cfg: Config, kp: int, l: Link)
    requires ValidConfig(cfg) && l.m.phase == ProbeFine && l.m.awaiting && GotResponse(l.m, l.lastReceived)
    ensures var m := Ticked(cfg, kp, l).m;
            m.phase == ProbeFine && m.lastSuccess == l.m.interval && m.interval == l.m.interval + cfg.fineStep > l.m.interval
  {
  }

  /** An upper bound on the silence of the client at the last tick. */
  ghost predicate SilenceInv(cfg: Config, kp: int, l: Link) {
    var last := l.nextTick - TICK;
    && last <= l.now <= l.nextTick && l.lastSent <= l.now
    && l.deadline == l.lastSent + ReapAfter(kp)
    && match l.m.phase
       case Stable => last - l.lastSent < Max(cfg.ceiling, cfg.window + TICK)
       case Lost => last - l.lastSent < Max(cfg.ceiling, cfg.window + TICK)
       case _ =>
         if l.m.awaiting then l.m.sentAt.Some? && l.m.sentAt.value <= l.lastSent && last - l.m.sentAt.value < cfg.window
         else last - l.lastSent < Max(cfg.ceiling + TICK, cfg.window + 2 * TICK)
  }

  lemma SilenceStep(cfg: Config, kp: int, l: Link, e: Event)
    requires ValidConfig(cfg) && Bounded(cfg, l.m) && SilenceInv(cfg, kp, l) && Can(l, e)
    ensures SilenceInv(cfg, kp, Happen(cfg, kp, l, e))
  {
  }

  function SilenceBound(cfg: Config): int {
    Max(cfg.ceiling + 2 * TICK, cfg.window + 3 * TICK)
  }

  lemma {:induction false} SilenceRun(cfg: Config, kp: int, l: Link, run: seq<Event>)
    requires ValidConfig(cfg) && ShapeInv(cfg, l.m, l.probes) && SilenceInv(cfg, kp, l)
    requires ValidRun(cfg, kp, l, run)
    ensures var l' := End(cfg, kp, l, run);
            && SilenceInv(cfg, kp, l') && l'.now - l'.lastSent < SilenceBound(cfg)
            && (SilenceBound(cfg) <= ReapAfter(kp) && !l.reaped ==> !l'.reaped)
    decreases |run|
  {
    if run != [] {
      var l' := Happen(cfg, kp, l, run[0]);
      ShapeBounds(cfg, l.m, l.probes);
      SilenceStep(cfg, kp, l, run[0]);
      if run[0].Tick? {
        ShapeTick(cfg, kp, l);
      }
      SilenceRun(cfg, kp, l', run[1..]);
    }
  }

  /**
   Between two packets of the client less than max(ceiling + 500, window + 750) ms pass,
   in any mix of probes, PUSHes, failures and re-adaptation.
   */
  lemma SilenceBounded(cfg: Config, kp: int, start: int, run: seq<Event>)
    requires ValidConfig(cfg) && ValidRun(cfg, kp, Begin(cfg, kp, start), run)
    ensures var l := End(cfg, kp, Begin(cfg, kp, start), run);
            l.now - l.lastSent < SilenceBound(cfg)
  {
    SilenceRun(cfg, kp, Begin(cfg, kp, start), run);
  }

  /** With a response window of at most 1.5 * kp seconds less 750 ms that is too short for the client to be reaped. */
  lemma NeverReaped(cfg: Config, kp: int, start: int, run: seq<Event>)
    requires ValidConfig(cfg) && kp >= 2 && cfg.ceiling <= 1000 * kp
    requires cfg.window <= ReapAfter(kp) - 3 * TICK
    requires ValidRun(cfg, kp, Begin(cfg, kp, start), run)
    ensures !End(cfg, kp, Begin(cfg, kp, start), run).reaped
  {
    SilenceRun(cfg, kp, Begin(cfg, kp, start), run);
  }
}
