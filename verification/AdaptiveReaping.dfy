/**
 The response window of client/keepalive.go against the reaper of server/server.go:
 the longest window with which no run is reaped.
 */
module AdaptiveReaping {
  import opened Wrappers
  import opened Adaptive
  import opened AdaptiveRuns
  import opened AdaptivePeriods
  import opened AdaptiveSettling

  ghost predicate EndsReaped(cfg: Config, kp: int, l: Link, run: seq<Event>) {
    ValidRun(cfg, kp, l, run) && End(cfg, kp, l, run).reaped
  }

  lemma PassReaps(cfg: Config, kp: int, l: Link) returns (run: seq<Event>)
    requires AtTick(l) && l.now + TICK >= l.deadline
    ensures EndsReaped(cfg, kp, l, run)
  {
    run := [Pass(TICK)];
    assert run[1..] == [];
  }

  /** The first doubling probe has just gone out. */
  ghost predicate FirstDoublingProbe(cfg: Config, kp: int, l: Link) {
    && AtTick(l)
    && l.m.phase == ProbeDoubling && l.m.awaiting && l.m.sentAt == Some(l.now) && l.m.lastSuccess == cfg.short
    && l.lastSent == l.now && l.deadline == l.now + ReapAfter(kp) && l.lastReceived < l.now
  }

  ghost predicate BeforeDoubling(cfg: Config, l: Link) {
    && AtTick(l) && PromptInv(cfg, l)
    && (l.m.phase == ProbeShort || (l.m.phase == ProbeDoubling && !l.m.awaiting && l.probes == 0))
  }

  lemma PeriodBeforeDoubling(cfg: Config, kp: int, l: Link)
    requires ValidConfig(cfg) && BeforeDoubling(cfg, l)
    ensures var l' := Period(cfg, kp, l, true);
            || (BeforeDoubling(cfg, l') && 0 <= TimeLeft(cfg, l') < TimeLeft(cfg, l))
            || FirstDoublingProbe(cfg, kp, l')
  {
    AnsweredPeriod(cfg, kp, l, true);
  }

  lemma {:induction false} ReachDoubling(cfg: Config, kp: int, l: Link) returns (run: seq<Event>)
    requires ValidConfig(cfg) && BeforeDoubling(cfg, l) && 0 <= TimeLeft(cfg, l)
    requires cfg.window > ReapAfter(kp) - 3 * TICK && kp >= 2 && cfg.ceiling <= 1000 * kp
    ensures EndsReaped(cfg, kp, l, run)
    decreases TimeLeft(cfg, l)
  {
    PeriodBeforeDoubling(cfg, kp, l);
    var l' := Period(cfg, kp, l, true);
    if FirstDoublingProbe(cfg, kp, l') {
      run := Silence(cfg, kp, l', l'.now);
    } else {
      run := ReachDoubling(cfg, kp, l');
    }
    PrependPeriod(cfg, kp, l, true, run);
    run := PeriodEvents(true) + run;
  }

  /** Nothing has arrived since the probe at time `sent`, which is still awaited. */
  ghost predicate Unanswered(cfg: Config, kp: int, l: Link, sent: int) {
    && AtTick(l)
    && l.m.phase == ProbeDoubling && l.m.awaiting && l.m.sentAt == Some(sent) && l.m.lastSuccess == cfg.short
    && l.lastSent == sent && l.deadline == sent + ReapAfter(kp) && l.lastReceived < sent
    && (l.now - sent) % TICK == 0 && 0 <= l.now - sent
  }

  /** After that probe the link is silent: the client waits, settles, re-adapts, and is too late. */
  lemma {:induction false} Silence(cfg: Config, kp: int, l: Link, sent: int) returns (run: seq<Event>)
    requires ValidConfig(cfg) && Unanswered(cfg, kp, l, sent)
    requires cfg.window > ReapAfter(kp) - 3 * TICK && kp >= 2 && cfg.ceiling <= 1000 * kp
    ensures EndsReaped(cfg, kp, l, run)
    decreases l.deadline - l.now
  {
    if l.now + TICK >= l.deadline {
      run := PassReaps(cfg, kp, l);
    } else {
      var l' := Period(cfg, kp, l, false);
      if l.now + TICK - sent < cfg.window {
        run := Silence(cfg, kp, l', sent);
      } else {
        run := TooLate(cfg, kp, l', sent);
      }
      PrependPeriod(cfg, kp, l, false, run);
      run := PeriodEvents(false) + run;
    }
  }

  lemma TooLate(cfg: Config, kp: int, l: Link, sent: int) returns (run: seq<Event>)
    requires ValidConfig(cfg) && kp >= 2 && cfg.ceiling <= 1000 * kp
    requires AtTick(l) && l.m.phase == Stable && l.m.successHeart == cfg.short
    requires l.lastReceived < sent && l.deadline == sent + ReapAfter(kp)
    requires (l.now - sent) % TICK == 0 && l.now - sent > ReapAfter(kp) - 3 * TICK
    ensures EndsReaped(cfg, kp, l, run)
  {
    assert l.now - sent >= ReapAfter(kp) - 2 * TICK by {
      MultiplesApart(l.now - sent, kp);
    }
    if l.now + TICK >= l.deadline {
      run := PassReaps(cfg, kp, l);
    } else {
      var l' := Period(cfg, kp, l, false);
      assert l'.m.phase == ProbeShort;
      run := PassReaps(cfg, kp, l');
      PrependPeriod(cfg, kp, l, false, run);
      run := PeriodEvents(false) + run;
    }
  }

  lemma MultiplesApart(a: int, kp: int)
    requires a % TICK == 0 && a > ReapAfter(kp) - 3 * TICK
    ensures a >= ReapAfter(kp) - 2 * TICK
  {
    var q := a / TICK;
    assert a == TICK * q;
    assert ReapAfter(kp) == TICK * (6 * kp);
  }

  ghost predicate NoRunReaped(cfg: Config, kp: int, start: int) {
    forall run :: ValidRun(cfg, kp, Begin(cfg, kp, start), run) ==>
                    !End(cfg, kp, Begin(cfg, kp, start), run).reaped
  }

  /**
   No run of the client is ever reaped if and only if the response window is at most
   one and a half times the keepalive less three ticks.
   */
  lemma NeverReapedExactly(cfg: Config, kp: int, start: int)
    requires ValidConfig(cfg) && kp >= 2 && cfg.ceiling <= 1000 * kp
    ensures NoRunReaped(cfg, kp, start) <==> cfg.window <= ReapAfter(kp) - 3 * TICK
  {
    if cfg.window <= ReapAfter(kp) - 3 * TICK {
      forall run | ValidRun(cfg, kp, Begin(cfg, kp, start), run)
        ensures !End(cfg, kp, Begin(cfg, kp, start), run).reaped
      {
        NeverReaped(cfg, kp, start, run);
      }
    } else {
      LeftPositive(cfg, Begin(cfg, kp, start));
      var run := ReachDoubling(cfg, kp, Begin(cfg, kp, start));
      assert ValidRun(cfg, kp, Begin(cfg, kp, start), run);
      assert End(cfg, kp, Begin(cfg, kp, start), run).reaped;
    }
  }
}
