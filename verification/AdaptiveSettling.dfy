/**
 Where the adaptive heartbeat of client/keepalive.go settles, how soon, and that a link
 which answers its probes is never given up.
 */
module AdaptiveSettling {
  import opened Wrappers
  import opened Adaptive
  import opened AdaptiveRuns

  // ---------- the number of doublings ----------

  /** The least k for which the short period doubled k times reaches the ceiling. */
  function Doublings(short: int, ceiling: int): nat
    requires short > 0
    decreases ceiling - short
  {
    if short >= ceiling then 0 else 1 + Doublings(2 * short, ceiling)
  }

  lemma {:induction false} DoubledTwice(short: int, j: nat)
    ensures Doubled(2 * short, j) == Doubled(short, j + 1)
  {
    if j > 0 {
      DoubledTwice(short, j - 1);
    }
  }

  lemma {:induction false} DoublingsLeast(short: int, ceiling: int, j: nat)
    requires short > 0
    ensures Doubled(short, j) < ceiling <==> j < Doublings(short, ceiling)
    decreases j
  {
    DoubledGrows(short, j);
    if short < ceiling && j > 0 {
      DoublingsLeast(2 * short, ceiling, j - 1);
      DoubledTwice(short, j - 1);
    }
  }

  // ---------- the quality of the settled interval ----------

  /** A doubling probe is answered in its window exactly when its interval is at most `limit`. */
  predicate Truthful(cfg: Config, limit: int, l: Link) {
    l.m.phase == ProbeDoubling && l.m.awaiting ==>
      && (GotResponse(l.m, l.lastReceived) ==> l.m.interval <= limit)
      && (!GotResponse(l.m, l.lastReceived) && WindowOver(cfg, l.m, l.now) ==> l.m.interval > limit)
  }

  predicate TruthfulRun(cfg: Config, kp: int, limit: int, l: Link, run: seq<Event>)
    requires ValidRun(cfg, kp, l, run)
    decreases |run|
  {
    run == [] ||
    ((run[0].Tick? ==> Truthful(cfg, limit, l)) && TruthfulRun(cfg, kp, limit, Happen(cfg, kp, l, run[0]), run[1..]))
  }

  /** The largest interval of the doubling sequence that the link sustains. */
  ghost predicate BestDoubling(cfg: Config, limit: int, best: int) {
    exists j: nat ::
      && best == IntervalAt(cfg, j) && best <= limit
      && (best == cfg.ceiling || limit < IntervalAt(cfg, j + 1))
  }

  ghost predicate Quality(cfg: Config, limit: int, m: Machine) {
    && (m.phase == ProbeDoubling ==> m.lastSuccess <= limit)
    && (m.phase == Stable ==> BestDoubling(cfg, limit, m.lastSuccess))
  }

  lemma QualityTick(cfg: Config, kp: int, limit: int, l: Link)
    requires ValidConfig(cfg) && limit >= cfg.short && ShapeInv(cfg, l.m, l.probes)
    requires Quality(cfg, limit, l.m) && Truthful(cfg, limit, l)
    ensures Quality(cfg, limit, Ticked(cfg, kp, l).m)
  {
    if l.m.phase == ProbeDoubling {
      var j := Answered(l.m, l.probes);
      IntervalFacts(cfg, j);
      var m := Ticked(cfg, kp, l).m;
      if m.phase == Stable {
        if GotResponse(l.m, l.lastReceived) {
          assert m.lastSuccess == IntervalAt(cfg, j) == cfg.ceiling;
        } else {
          assert j > 0 && m.lastSuccess == IntervalAt(cfg, j - 1) && limit < IntervalAt(cfg, (j - 1) + 1);
        }
        assert BestDoubling(cfg, limit, m.lastSuccess);
      }
    }
  }

  lemma {:induction false} QualityRun(cfg: Config, kp: int, limit: int, l: Link, run: seq<Event>)
    requires ValidConfig(cfg) && limit >= cfg.short && ShapeInv(cfg, l.m, l.probes) && Quality(cfg, limit, l.m)
    requires ValidRun(cfg, kp, l, run) && TruthfulRun(cfg, kp, limit, l, run)
    ensures Quality(cfg, limit, End(cfg, kp, l, run).m)
    decreases |run|
  {
    if run != [] {
      if run[0].Tick? {
        QualityTick(cfg, kp, limit, l);
        ShapeTick(cfg, kp, l);
      }
      QualityRun(cfg, kp, limit, Happen(cfg, kp, l, run[0]), run[1..]);
    }
  }

  /**
   If the network sustains intervals up to `limit`, the interval chosen on entering the
   stable phase is nine tenths of the largest doubling below it (or the short period):
   sustainable, at least 45% of what could be had, and found with at most one probe per
   doubling up to the ceiling.
   */
  lemma SettlingQuality(cfg: Config, kp: int, limit: int, start: int, run: seq<Event>)
    requires ValidConfig(cfg) && limit >= cfg.short
    requires ValidRun(cfg, kp, Begin(cfg, kp, start), run)
    requires TruthfulRun(cfg, kp, limit, Begin(cfg, kp, start), run)
    ensures var l := End(cfg, kp, Begin(cfg, kp, start), run);
            l.m.phase == Stable ==>
              && BestDoubling(cfg, limit, l.m.lastSuccess)
              && l.m.successHeart == SettledHeart(cfg, l.m.lastSuccess)
              && cfg.short <= l.m.successHeart <= limit
              && 20 * l.m.successHeart >= 9 * Min(limit, cfg.ceiling) - 9
              && l.probes <= Doublings(cfg.short, cfg.ceiling) + 1
  {
    var l := End(cfg, kp, Begin(cfg, kp, start), run);
    QualityRun(cfg, kp, limit, Begin(cfg, kp, start), run);
    ShapeRun(cfg, kp, Begin(cfg, kp, start), run);
    if l.m.phase == Stable {
      BestIsHalf(cfg, limit, l.m.lastSuccess);
      if l.probes > 1 {
        DoublingsLeast(cfg.short, cfg.ceiling, l.probes - 2);
      }
    }
  }

  lemma BestIsHalf(cfg: Config, limit: int, best: int)
    requires ValidConfig(cfg) && BestDoubling(cfg, limit, best)
    ensures cfg.short <= best <= Min(limit, cfg.ceiling)
    ensures best == cfg.ceiling || limit < 2 * best
  {
    var j: nat :| best == IntervalAt(cfg, j) && best <= limit && (best == cfg.ceiling || limit < IntervalAt(cfg, j + 1));
    IntervalFacts(cfg, j);
  }

  lemma {:induction false} IntervalsRise(cfg: Config, i: nat, j: nat)
    requires ValidConfig(cfg) && i <= j
    ensures IntervalAt(cfg, i) <= IntervalAt(cfg, j)
  {
    if i < j {
      IntervalsRise(cfg, i, j - 1);
      IntervalFacts(cfg, j - 1);
    }
  }

  lemma {:induction false} DoubledWhole(seconds: int, j: nat) returns (whole: int)
    ensures Doubled(1000 * seconds, j) == 1000 * whole
  {
    if j == 0 {
      whole := seconds;
    } else {
      whole := DoubledWhole(seconds, j - 1);
      whole := 2 * whole;
    }
  }

  lemma WholeSeconds(x: int) returns (seconds: int)
    requires x % 1000 == 0
    ensures x == 1000 * seconds
  {
    seconds := x / 1000;
  }

  lemma TenthsExact(whole: int)
    ensures 10 * (1000 * whole * 9 / 10) == 9 * (1000 * whole)
  {
    assert 1000 * whole * 9 == 10 * (900 * whole);
  }

  /** Intervals are whole seconds, so nine tenths of one are exact. */
  lemma NineTenths(cfg: Config, j: nat)
    requires ValidConfig(cfg)
    ensures 10 * (IntervalAt(cfg, j) * 9 / 10) == 9 * IntervalAt(cfg, j)
  {
    var short := WholeSeconds(cfg.short);
    var ceiling := WholeSeconds(cfg.ceiling);
    var doubled := DoubledWhole(short, j);
    TenthsExact(ceiling);
    TenthsExact(doubled);
  }

  lemma BestReachesProbed(cfg: Config, limit: int, best: int, i: nat)
    requires ValidConfig(cfg) && BestDoubling(cfg, limit, best) && IntervalAt(cfg, i) == Min(limit, cfg.ceiling)
    ensures best == Min(limit, cfg.ceiling)
  {
    BestIsHalf(cfg, limit, best);
    var j: nat :| best == IntervalAt(cfg, j) && best <= limit && (best == cfg.ceiling || limit < IntervalAt(cfg, j + 1));
    if i <= j {
      IntervalsRise(cfg, i, j);
    } else {
      IntervalsRise(cfg, j + 1, i);
    }
  }

  /** The most the link and the ceiling allow is itself a probed interval, or the short period comes close to it. */
  ghost predicate EasyLimit(cfg: Config, limit: int) {
    || (exists i: nat :: IntervalAt(cfg, i) == Min(limit, cfg.ceiling))
    || 10 * cfg.short >= 9 * Min(limit, cfg.ceiling)
  }

  lemma BestKeepsPromise(cfg: Config, limit: int, best: int)
    requires ValidConfig(cfg) && BestDoubling(cfg, limit, best)
    ensures 10 * SettledHeart(cfg, best) >= 9 * Min(limit, cfg.ceiling) <==> EasyLimit(cfg, limit)
  {
    BestIsHalf(cfg, limit, best);
    var j: nat :| best == IntervalAt(cfg, j);
    NineTenths(cfg, j);
    PromiseArithmetic(cfg.short, best, Min(limit, cfg.ceiling), SettledHeart(cfg, best));
    if i: nat :| IntervalAt(cfg, i) == Min(limit, cfg.ceiling) {
      BestReachesProbed(cfg, limit, best, i);
    }
  }

  lemma PromiseArithmetic(short: int, best: int, most: int, heart: int)
    requires 0 < short <= best <= most && 10 * (best * 9 / 10) == 9 * best && heart == Max(best * 9 / 10, short)
    ensures 10 * heart >= 9 * most <==> best == most || 10 * short >= 9 * most
  {
  }

  // ---------- a prompt link ----------

  /** The client sends nothing but probes, and each is answered before the next tick. */
  predicate Prompt(cfg: Config, kp: int, l: Link, run: seq<Event>)
    requires ValidRun(cfg, kp, l, run)
    decreases |run|
  {
    run == [] ||
    (&& !run[0].Push?
     && (run[0].Tick? ==> l.lastReceived >= l.lastSent)
     && Prompt(cfg, kp, Happen(cfg, kp, l, run[0]), run[1..]))
  }

  ghost predicate PromptInv(cfg: Config, l: Link) {
    var last := l.nextTick - TICK;
    && ShapeInv(cfg, l.m, l.probes)
    && last <= l.now <= l.nextTick && l.lastSent <= last
    && match l.m.phase
       case Stable => l.m.lastSuccess == cfg.ceiling && last - l.lastSent < l.m.successHeart
       case Lost => false
       case _ =>
         if l.m.awaiting then l.lastSent == last && l.m.sentAt == Some(last)
         else last - l.lastSent < l.m.interval
  }

  lemma PromptTick(cfg: Config, kp: int, l: Link)
    requires ValidConfig(cfg) && PromptInv(cfg, l) && Can(l, Tick) && l.lastReceived >= l.lastSent
    ensures PromptInv(cfg, Ticked(cfg, kp, l))
    ensures l.m.phase == Stable ==> Ticked(cfg, kp, l).m.phase == Stable
  {
    ShapeBounds(cfg, l.m, l.probes);
    ShapeTick(cfg, kp, l);
  }

  /** Probes still to be answered before the search ends at the ceiling. */
  function Left(cfg: Config, l: Link): int
    requires cfg.short > 0
  {
    match l.m.phase
    case ProbeShort => cfg.probeCount - l.m.shortOk + Doublings(cfg.short, cfg.ceiling) + 1
    case ProbeDoubling => Doublings(cfg.short, cfg.ceiling) + 1 - Answered(l.m, l.probes)
    case _ => 0
  }

  /** Milliseconds until the next probe is out. */
  function Wait(l: Link): int {
    if l.m.awaiting || l.m.phase == Stable then 0
    else l.m.interval - (l.nextTick - TICK - l.lastSent) + TICK
  }

  function TimeLeft(cfg: Config, l: Link): int
    requires cfg.short > 0
  {
    Left(cfg, l) * (cfg.ceiling + 500) + Wait(l)
  }

  lemma MulAtLeast(n: int, x: int)
    requires n >= 1 && x >= 0
    ensures n * x >= x
  {
  }

  lemma LeftPositive(cfg: Config, l: Link)
    requires ValidConfig(cfg) && PromptInv(cfg, l) && l.m.phase != Stable
    ensures Left(cfg, l) >= 1 && TimeLeft(cfg, l) >= cfg.ceiling + 500
  {
    if l.m.phase == ProbeDoubling && Answered(l.m, l.probes) > 0 {
      DoublingsLeast(cfg.short, cfg.ceiling, Answered(l.m, l.probes) - 1);
    }
    MulAtLeast(Left(cfg, l), cfg.ceiling + 500);
  }

  lemma LeftTick(cfg: Config, kp: int, l: Link)
    requires ValidConfig(cfg) && PromptInv(cfg, l) && Can(l, Tick) && l.lastReceived >= l.lastSent
    requires l.m.phase != Stable && Ticked(cfg, kp, l).m.phase != Stable
    ensures var l' := Ticked(cfg, kp, l);
            || (Left(cfg, l') == Left(cfg, l) && Wait(l') + TICK <= Wait(l))
            || (Left(cfg, l') == Left(cfg, l) - 1 && Wait(l') <= cfg.ceiling)
  {
    ShapeBounds(cfg, l.m, l.probes);
    PromptTick(cfg, kp, l);
    ShapeBounds(cfg, Ticked(cfg, kp, l).m, Ticked(cfg, kp, l).probes);
  }

  lemma TimeLeftTick(cfg: Config, kp: int, l: Link)
    requires ValidConfig(cfg) && PromptInv(cfg, l) && Can(l, Tick) && l.lastReceived >= l.lastSent
    requires l.m.phase != Stable
    ensures var l' := Ticked(cfg, kp, l);
            l'.m.phase != Stable ==> TimeLeft(cfg, l') + TICK <= TimeLeft(cfg, l)
  {
    var l' := Ticked(cfg, kp, l);
    if l'.m.phase != Stable {
      LeftTick(cfg, kp, l);
      var n, x := Left(cfg, l), cfg.ceiling + 500;
      assert (n - 1) * x == n * x - x;
    }
  }

  function Ticks(run: seq<Event>): nat {
    if run == [] then 0 else (if run[0].Tick? then 1 else 0) + Ticks(run[1..])
  }

  lemma {:induction false} PromptRun(cfg: Config, kp: int, l: Link, run: seq<Event>)
    requires ValidConfig(cfg) && PromptInv(cfg, l) && ValidRun(cfg, kp, l, run) && Prompt(cfg, kp, l, run)
    ensures var l' := End(cfg, kp, l, run);
            && PromptInv(cfg, l')
            && (l.m.phase == Stable ==> l'.m.phase == Stable)
            && (l'.m.phase != Stable ==> TimeLeft(cfg, l') + TICK * Ticks(run) <= TimeLeft(cfg, l))
    decreases |run|
  {
    if run != [] {
      var l1 := Happen(cfg, kp, l, run[0]);
      if run[0].Tick? {
        PromptTick(cfg, kp, l);
        if l.m.phase != Stable {
          TimeLeftTick(cfg, kp, l);
        }
      }
      PromptRun(cfg, kp, l1, run[1..]);
    }
  }

  /**
   On a prompt link the heartbeat never declares a loss. It reaches the stable phase
   within (probeCount + k + 1) * (ceiling + 500) + short + 250 ms, with k doublings to
   the ceiling, and stays there at nine tenths of the ceiling.
   */
  lemma SettlesAtCeiling(cfg: Config, kp: int, start: int, run: seq<Event>, later: seq<Event>)
    requires ValidConfig(cfg)
    requires ValidRun(cfg, kp, Begin(cfg, kp, start), run) && Prompt(cfg, kp, Begin(cfg, kp, start), run)
    requires TICK * Ticks(run) >
             (cfg.probeCount + Doublings(cfg.short, cfg.ceiling) + 1) * (cfg.ceiling + 500) + cfg.short + TICK
    requires ValidRun(cfg, kp, End(cfg, kp, Begin(cfg, kp, start), run), later)
    requires Prompt(cfg, kp, End(cfg, kp, Begin(cfg, kp, start), run), later)
    ensures var m := End(cfg, kp, End(cfg, kp, Begin(cfg, kp, start), run), later).m;
            m.phase == Stable && m.successHeart == Max(cfg.ceiling * 9 / 10, cfg.short)
  {
    var l0 := Begin(cfg, kp, start);
    PromptRun(cfg, kp, l0, run);
    var l1 := End(cfg, kp, l0, run);
    if l1.m.phase != Stable {
      LeftPositive(cfg, l1);
      assert false;
    }
    PromptRun(cfg, kp, l1, later);
  }

  /** Every probe of the two probing phases is answered by the next tick; PUSHes come at any time. */
  predicate Answering(cfg: Config, kp: int, l: Link, run: seq<Event>)
    requires ValidRun(cfg, kp, l, run)
    decreases |run|
  {
    run == [] ||
    (&& (run[0].Tick? && l.m.phase in {ProbeShort, ProbeDoubling} && l.m.awaiting ==> GotResponse(l.m, l.lastReceived))
     && Answering(cfg, kp, Happen(cfg, kp, l, run[0]), run[1..]))
  }

  predicate AtBest(cfg: Config, m: Machine) {
    m.phase != Lost && (m.phase == Stable ==> m.lastSuccess == cfg.ceiling)
  }

  lemma {:induction false} AnsweringRun(cfg: Config, kp: int, l: Link, run: seq<Event>)
    requires ValidConfig(cfg) && ShapeInv(cfg, l.m, l.probes) && AtBest(cfg, l.m)
    requires ValidRun(cfg, kp, l, run) && Answering(cfg, kp, l, run)
    ensures AtBest(cfg, End(cfg, kp, l, run).m)
    decreases |run|
  {
    if run != [] {
      if run[0].Tick? {
        ShapeTick(cfg, kp, l);
        if l.m.phase == ProbeDoubling {
          IntervalFacts(cfg, Answered(l.m, l.probes));
        }
      }
      AnsweringRun(cfg, kp, Happen(cfg, kp, l, run[0]), run[1..]);
    }
  }

  /** If its probes are answered, no loss is declared, and the stable phase is entered at the ceiling only. */
  lemma AnsweredNeverLost(cfg: Config, kp: int, start: int, run: seq<Event>)
    requires ValidConfig(cfg)
    requires ValidRun(cfg, kp, Begin(cfg, kp, start), run) && Answering(cfg, kp, Begin(cfg, kp, start), run)
    ensures var m := End(cfg, kp, Begin(cfg, kp, start), run).m;
            m.phase != Lost && (m.phase == Stable ==> m.lastSuccess == cfg.ceiling)
  {
    AnsweringRun(cfg, kp, Begin(cfg, kp, start), run);
  }
}
