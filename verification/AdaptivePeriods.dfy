/**
 Runs of the adaptive heartbeat put together from whole tick periods.
 */
module AdaptivePeriods {
  import opened Adaptive
  import opened AdaptiveRuns
  import opened AdaptiveSettling

  /** One full tick period: perhaps a packet arrives, then 250 ms pass, then the loop ticks. */
  function PeriodEvents(hear: bool): seq<Event> {
    (if hear then [Receive] else []) + [Pass(TICK), Tick]
  }

  predicate AtTick(l: Link) {
    l.now == l.nextTick - TICK && l.m.phase != Lost && l.lastReceived <= l.now
  }

  function Waited(cfg: Config, kp: int, l: Link, hear: bool): Link
    requires AtTick(l)
  {
    var l1 := if hear then Happen(cfg, kp, l, Receive) else l;
    Happen(cfg, kp, l1, Pass(TICK))
  }

  function Period(cfg: Config, kp: int, l: Link, hear: bool): Link
    requires AtTick(l)
  {
    Ticked(cfg, kp, Waited(cfg, kp, l, hear))
  }

  lemma Prepend(cfg: Config, kp: int, l: Link, e: Event, rest: seq<Event>)
    requires Can(l, e) && ValidRun(cfg, kp, Happen(cfg, kp, l, e), rest)
    ensures ValidRun(cfg, kp, l, [e] + rest)
    ensures End(cfg, kp, l, [e] + rest) == End(cfg, kp, Happen(cfg, kp, l, e), rest)
  {
    assert ([e] + rest)[1..] == rest;
  }

  lemma PrependPeriod(cfg: Config, kp: int, l: Link, hear: bool, rest: seq<Event>)
    requires AtTick(l) && ValidRun(cfg, kp, Period(cfg, kp, l, hear), rest)
    ensures ValidRun(cfg, kp, l, PeriodEvents(hear) + rest)
    ensures End(cfg, kp, l, PeriodEvents(hear) + rest) == End(cfg, kp, Period(cfg, kp, l, hear), rest)
  {
    var l1 := if hear then Happen(cfg, kp, l, Receive) else l;
    var l2 := Happen(cfg, kp, l1, Pass(TICK));
    Prepend(cfg, kp, l2, Tick, rest);
    Prepend(cfg, kp, l1, Pass(TICK), [Tick] + rest);
    if hear {
      Prepend(cfg, kp, l, Receive, [Pass(TICK)] + ([Tick] + rest));
      assert PeriodEvents(hear) + rest == [Receive] + ([Pass(TICK)] + ([Tick] + rest));
    } else {
      assert PeriodEvents(hear) + rest == [Pass(TICK)] + ([Tick] + rest);
    }
  }

  /** A period in which nothing stays unanswered brings the search nearer to its end. */
  lemma AnsweredPeriod(cfg: Config, kp: int, l: Link, hear: bool)
    requires ValidConfig(cfg) && AtTick(l) && PromptInv(cfg, l) && l.m.phase != Stable
    requires hear || l.lastReceived >= l.lastSent
    ensures var l' := Period(cfg, kp, l, hear);
            && AtTick(l') && PromptInv(cfg, l') && l'.lastReceived < l'.now
            && (l'.m.phase != Stable ==> 0 <= TimeLeft(cfg, l') < TimeLeft(cfg, l))
  {
    var w := Waited(cfg, kp, l, hear);
    PromptTick(cfg, kp, w);
    TimeLeftTick(cfg, kp, w);
    assert TimeLeft(cfg, w) == TimeLeft(cfg, l);
    if Period(cfg, kp, l, hear).m.phase != Stable {
      LeftPositive(cfg, Period(cfg, kp, l, hear));
    }
  }
}
