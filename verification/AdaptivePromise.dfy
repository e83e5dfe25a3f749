/**
 The documented promise of the adaptive heartbeat (client/keepalive.go), nine tenths of
 the maximum that can be sustained, over all runs on a link that sustains a given limit:
 when the interval chosen meets it, and when that interval is used at all.
 */
module AdaptivePromise {
  import opened Wrappers
  import opened Adaptive
  import opened AdaptiveRuns
  import opened AdaptiveIdle
  import opened AdaptivePeriods
  import opened AdaptiveSettling

  // ---------- the search always ends ----------

  ghost predicate Settles(cfg: Config, kp: int, limit: int, l: Link, run: seq<Event>) {
    && ValidRun(cfg, kp, l, run) && TruthfulRun(cfg, kp, limit, l, run)
    && End(cfg, kp, l, run).m.phase == Stable
  }

  /** A run on an idle link that sustains intervals up to the limit. */
  ghost predicate IdleTruthful(cfg: Config, kp: int, limit: int, l: Link, run: seq<Event>) {
    ValidRun(cfg, kp, l, run) && TruthfulRun(cfg, kp, limit, l, run) && Idle(cfg, kp, 0, l, run)
  }

  lemma IdlePrepend(cfg: Config, kp: int, limit: int, l: Link, e: Event, rest: seq<Event>)
    requires Can(l, e) && IdleTruthful(cfg, kp, limit, Happen(cfg, kp, l, e), rest)
    requires e.Tick? ==> Truthful(cfg, limit, l)
    requires !e.Push? && (e.Receive? ==> l.m.awaiting && l.now == l.lastSent)
    ensures IdleTruthful(cfg, kp, limit, l, [e] + rest)
  {
    Prepend(cfg, kp, l, e, rest);
    assert ([e] + rest)[1..] == rest;
  }

  lemma IdlePeriod(cfg: Config, kp: int, limit: int, l: Link, hear: bool, rest: seq<Event>)
    requires AtTick(l) && IdleTruthful(cfg, kp, limit, Period(cfg, kp, l, hear), rest)
    requires Truthful(cfg, limit, Waited(cfg, kp, l, hear))
    requires hear ==> l.m.awaiting && l.now == l.lastSent
    ensures IdleTruthful(cfg, kp, limit, l, PeriodEvents(hear) + rest)
    ensures End(cfg, kp, l, PeriodEvents(hear) + rest) == End(cfg, kp, Period(cfg, kp, l, hear), rest)
  {
    PrependPeriod(cfg, kp, l, hear, rest);
    var l1 := if hear then Happen(cfg, kp, l, Receive) else l;
    IdlePrepend(cfg, kp, limit, Happen(cfg, kp, l1, Pass(TICK)), Tick, rest);
    IdlePrepend(cfg, kp, limit, l1, Pass(TICK), [Tick] + rest);
    if hear {
      IdlePrepend(cfg, kp, limit, l, Receive, [Pass(TICK)] + ([Tick] + rest));
      assert PeriodEvents(hear) + rest == [Receive] + ([Pass(TICK)] + ([Tick] + rest));
    } else {
      assert PeriodEvents(hear) + rest == [Pass(TICK)] + ([Tick] + rest);
    }
  }

  /** The run is idle and ends in a stable phase, just after a tick, at the ceiling if the link sustains that. */
  ghost predicate SettlesIdly(cfg: Config, kp: int, limit: int, l: Link, run: seq<Event>) {
    && IdleTruthful(cfg, kp, limit, l, run)
    && var l' := End(cfg, kp, l, run);
       l'.m.phase == Stable && (limit >= cfg.ceiling ==> Quiet(cfg, l') && !l'.m.awaiting)
  }

  /** Just after a tick, with nothing unanswered. */
  ghost predicate Quiet(cfg: Config, l: Link) {
    AtTick(l) && PromptInv(cfg, l) && (!l.m.awaiting ==> l.lastReceived >= l.lastSent)
  }

  /** A probe of an interval beyond the limit is awaited in vain. */
  lemma {:induction false} WaitInVain(cfg: Config, kp: int, limit: int, l: Link, sent: int) returns (run: seq<Event>)
    requires ValidConfig(cfg) && AtTick(l) && l.m.phase == ProbeDoubling && l.m.awaiting && limit < cfg.ceiling
    requires l.m.sentAt == Some(sent) && l.lastReceived < sent && l.m.interval > limit && l.now - sent < cfg.window
    ensures SettlesIdly(cfg, kp, limit, l, run)
    decreases sent + cfg.window - l.now
  {
    var l' := Period(cfg, kp, l, false);
    var rest: seq<Event> := [];
    if l'.m.phase != Stable {
      rest := WaitInVain(cfg, kp, limit, l', sent);
    }
    IdlePeriod(cfg, kp, limit, l, false, rest);
    run := PeriodEvents(false) + rest;
  }

  /** One period in which a probe that is out is answered. */
  lemma QuietPeriod(cfg: Config, kp: int, l: Link)
    requires ValidConfig(cfg) && Quiet(cfg, l) && l.m.phase != Stable && (l.m.awaiting ==> l.lastReceived < l.now)
    ensures var l' := Period(cfg, kp, l, l.m.awaiting);
            && Quiet(cfg, l') && (l'.m.awaiting ==> l'.lastReceived < l'.now)
            && (l'.m.phase != Stable ==> 0 <= TimeLeft(cfg, l') < TimeLeft(cfg, l))
  {
    AnsweredPeriod(cfg, kp, l, l.m.awaiting);
  }

  lemma {:induction false} SettleFrom(cfg: Config, kp: int, limit: int, l: Link) returns (run: seq<Event>)
    requires ValidConfig(cfg) && Quiet(cfg, l) && l.m.phase != Stable
    requires 0 <= TimeLeft(cfg, l) && (l.m.awaiting ==> l.lastReceived < l.now)
    ensures SettlesIdly(cfg, kp, limit, l, run)
    decreases TimeLeft(cfg, l)
  {
    if l.m.phase == ProbeDoubling && l.m.awaiting && l.m.interval > limit {
      ShapeBounds(cfg, l.m, l.probes);
      run := WaitInVain(cfg, kp, limit, l, l.now);
    } else {
      QuietPeriod(cfg, kp, l);
      var l' := Period(cfg, kp, l, l.m.awaiting);
      var rest: seq<Event> := [];
      if l'.m.phase != Stable {
        rest := SettleFrom(cfg, kp, limit, l');
      }
      IdlePeriod(cfg, kp, limit, l, l.m.awaiting, rest);
      run := PeriodEvents(l.m.awaiting) + rest;
    }
  }

  /** On a link that sustains intervals up to the limit, and no others, the search can run its course, without other traffic too. */
  lemma SettlingPossible(cfg: Config, kp: int, limit: int, start: int) returns (run: seq<Event>)
    requires ValidConfig(cfg)
    ensures Settles(cfg, kp, limit, Begin(cfg, kp, start), run)
    ensures SettlesIdly(cfg, kp, limit, Begin(cfg, kp, start), run)
  {
    LeftPositive(cfg, Begin(cfg, kp, start));
    run := SettleFrom(cfg, kp, limit, Begin(cfg, kp, start));
  }

  // ---------- nine tenths of the maximum ----------

  /** Every run on such a link that has settled has chosen nine tenths of the maximum or more. */
  ghost predicate PromiseKept(cfg: Config, kp: int, limit: int, start: int) {
    forall run :: Settles(cfg, kp, limit, Begin(cfg, kp, start), run) ==>
                    10 * End(cfg, kp, Begin(cfg, kp, start), run).m.successHeart >= 9 * Min(limit, cfg.ceiling)
  }

  /**
   The interval chosen on entering the stable phase meets the documented promise if and
   only if the maximum is itself one of the doubled intervals (the ceiling included), or
   the short period already comes that close to it.
   */
  lemma NinetyPercentExactly(cfg: Config, kp: int, limit: int, start: int)
    requires ValidConfig(cfg) && limit >= cfg.short
    ensures PromiseKept(cfg, kp, limit, start) <==> EasyLimit(cfg, limit)
  {
    forall run | Settles(cfg, kp, limit, Begin(cfg, kp, start), run)
      ensures 10 * End(cfg, kp, Begin(cfg, kp, start), run).m.successHeart >= 9 * Min(limit, cfg.ceiling) <==> EasyLimit(cfg, limit)
    {
      SettlingQuality(cfg, kp, limit, start, run);
      BestKeepsPromise(cfg, limit, End(cfg, kp, Begin(cfg, kp, start), run).m.lastSuccess);
    }
    var run := SettlingPossible(cfg, kp, limit, start);
  }

  /** Probing from 10 s to 300 s on a link good for almost 160 s settles at 72 s, 45% of it. */
  lemma NinetyPercentCanFail(kp: int, start: int) returns (run: seq<Event>)
    ensures var cfg := Config(10000, 300000, 3, 2000, 5000);
            && Settles(cfg, kp, 159999, Begin(cfg, kp, start), run)
            && End(cfg, kp, Begin(cfg, kp, start), run).m.successHeart == 72000
  {
    var cfg := Config(10000, 300000, 3, 2000, 5000);
    run := SettlingPossible(cfg, kp, 159999, start);
    SettlingQuality(cfg, kp, 159999, start, run);
    var best := End(cfg, kp, Begin(cfg, kp, start), run).m.lastSuccess;
    var j: nat :| best == IntervalAt(cfg, j) && best <= 159999 && (best == cfg.ceiling || 159999 < IntervalAt(cfg, j + 1));
    assert Doubled(10000, 1) == 20000 && Doubled(10000, 2) == 40000;
    assert Doubled(10000, 3) == 80000 && Doubled(10000, 4) == 160000;
    if j < 3 {
      IntervalsRise(cfg, j + 1, 3);
    } else if j > 3 {
      IntervalsRise(cfg, 4, j);
    }
  }

  // ---------- whether the interval is used ----------

  /** Some tick of the run sends a ping in the stable phase. */
  predicate UsesInterval(cfg: Config, kp: int, l: Link, run: seq<Event>)
    requires ValidRun(cfg, kp, l, run)
    decreases |run|
  {
    run != [] &&
    ((run[0].Tick? && StablePing(cfg, l)) || UsesInterval(cfg, kp, Happen(cfg, kp, l, run[0]), run[1..]))
  }

  /** A link that does not sustain the ceiling never lets the search succeed there. */
  predicate BelowCeiling(cfg: Config, m: Machine) {
    m.phase in {ProbeDoubling, Stable} ==> m.lastSuccess < cfg.ceiling
  }

  lemma BelowCeilingTick(cfg: Config, kp: int, limit: int, l: Link)
    requires ValidConfig(cfg) && limit < cfg.ceiling && BelowCeiling(cfg, l.m) && ShapeInv(cfg, l.m, l.probes)
    requires Truthful(cfg, limit, l)
    ensures BelowCeiling(cfg, Ticked(cfg, kp, l).m)
  {
  }

  lemma {:induction false} NeverUsed(cfg: Config, kp: int, limit: int, delay: int, l: Link, run: seq<Event>)
    requires ValidConfig(cfg) && limit < cfg.ceiling && 0 <= delay && 2 * delay <= cfg.short
    requires ShapeInv(cfg, l.m, l.probes) && IdleInv(cfg, delay, l) && BelowCeiling(cfg, l.m)
    requires ValidRun(cfg, kp, l, run) && TruthfulRun(cfg, kp, limit, l, run) && Idle(cfg, kp, delay, l, run)
    ensures !UsesInterval(cfg, kp, l, run)
    decreases |run|
  {
    if run != [] {
      if run[0].Tick? {
        IdleTick(cfg, kp, delay, l);
        ShapeTick(cfg, kp, l);
        BelowCeilingTick(cfg, kp, limit, l);
      }
      NeverUsed(cfg, kp, limit, delay, Happen(cfg, kp, l, run[0]), run[1..]);
    }
  }

  /** Settled at the ceiling, the next ping comes in time. */
  lemma {:induction false} PingFrom(cfg: Config, kp: int, limit: int, l: Link) returns (run: seq<Event>)
    requires ValidConfig(cfg) && Quiet(cfg, l) && l.m.phase == Stable && !l.m.awaiting
    ensures IdleTruthful(cfg, kp, limit, l, run) && UsesInterval(cfg, kp, l, run)
    decreases l.lastSent + l.m.successHeart - l.now
  {
    ShapeBounds(cfg, l.m, l.probes);
    var w, l' := Waited(cfg, kp, l, false), Period(cfg, kp, l, false);
    PromptTick(cfg, kp, w);
    var rest: seq<Event> := [];
    if !StablePing(cfg, w) {
      rest := PingFrom(cfg, kp, limit, l');
    }
    IdlePeriod(cfg, kp, limit, l, false, rest);
    run := PeriodEvents(false) + rest;
    assert run == [Pass(TICK)] + ([Tick] + rest);
    assert run[1..] == [Tick] + rest && run[1..][1..] == rest;
    assert UsesInterval(cfg, kp, w, run[1..]);
  }

  /** Runs one after the other. */
  lemma {:induction false} Join(cfg: Config, kp: int, limit: int, l: Link, run: seq<Event>, later: seq<Event>)
    requires IdleTruthful(cfg, kp, limit, l, run) && IdleTruthful(cfg, kp, limit, End(cfg, kp, l, run), later)
    requires UsesInterval(cfg, kp, End(cfg, kp, l, run), later)
    ensures IdleTruthful(cfg, kp, limit, l, run + later) && UsesInterval(cfg, kp, l, run + later)
    decreases |run|
  {
    if run == [] {
      assert run + later == later;
    } else {
      assert (run + later)[1..] == run[1..] + later;
      Join(cfg, kp, limit, Happen(cfg, kp, l, run[0]), run[1..], later);
    }
  }

  /** On some idle run, with answers within `delay` ms, a ping is sent in the stable phase. */
  ghost predicate CanBeUsed(cfg: Config, kp: int, limit: int, delay: int, start: int) {
    exists run ::
      && ValidRun(cfg, kp, Begin(cfg, kp, start), run)
      && TruthfulRun(cfg, kp, limit, Begin(cfg, kp, start), run) && Idle(cfg, kp, delay, Begin(cfg, kp, start), run)
      && UsesInterval(cfg, kp, Begin(cfg, kp, start), run)
  }

  lemma {:induction false} IdleSlower(cfg: Config, kp: int, delay: int, l: Link, run: seq<Event>)
    requires 0 <= delay && ValidRun(cfg, kp, l, run) && Idle(cfg, kp, 0, l, run)
    ensures Idle(cfg, kp, delay, l, run)
    decreases |run|
  {
    if run != [] {
      IdleSlower(cfg, kp, delay, Happen(cfg, kp, l, run[0]), run[1..]);
    }
  }

  /**
   On an idle link that answers within half the short period, the interval settled on is
   ever used if and only if the link sustains the ceiling: anything less is found, chosen
   and given up again, over and over.
   */
  lemma UsedExactly(cfg: Config, kp: int, limit: int, delay: int, start: int)
    requires ValidConfig(cfg) && 0 <= delay && 2 * delay <= cfg.short
    ensures CanBeUsed(cfg, kp, limit, delay, start) <==> limit >= cfg.ceiling
  {
    var l := Begin(cfg, kp, start);
    if limit >= cfg.ceiling {
      var run := SettlingPossible(cfg, kp, limit, start);
      var later := PingFrom(cfg, kp, limit, End(cfg, kp, l, run));
      Join(cfg, kp, limit, l, run, later);
      IdleSlower(cfg, kp, delay, l, run + later);
    } else {
      forall run | ValidRun(cfg, kp, l, run) && TruthfulRun(cfg, kp, limit, l, run) && Idle(cfg, kp, delay, l, run)
        ensures !UsesInterval(cfg, kp, l, run)
      {
        NeverUsed(cfg, kp, limit, delay, l, run);
      }
    }
  }
}
