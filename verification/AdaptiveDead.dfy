/**
 The adaptive heartbeat of client/keepalive.go on a dead link, from which nothing more is
 received: when the loss is noticed, and how soon.
 */
module AdaptiveDead {
  import opened Wrappers
  import opened Adaptive
  import opened AdaptiveRuns
  import opened AdaptiveSettling
  import opened AdaptivePeriods
  import opened AdaptivePromise

  /** Nothing is received, and no PUSH comes within `gap` ms of the packet sent before it. */
  predicate Dead(cfg: Config, kp: int, gap: int, l: Link, run: seq<Event>)
    requires ValidRun(cfg, kp, l, run)
    decreases |run|
  {
    run == [] ||
    (&& !run[0].Receive?
     && (run[0].Push? ==> l.now - l.lastSent >= gap)
     && Dead(cfg, kp, gap, Happen(cfg, kp, l, run[0]), run[1..]))
  }

  // ---------- how long a probe can be put off ----------

  /**
   `e` ms have passed since the last packet at the last tick, and a probe is due after `i`.
   A PUSH between the tick before and the tick at which it would be sent puts it off, but
   moves the next such moment nearer to a tick.
   */
  function PutOff(e: int, i: int): int {
    if e >= i then 250 * (i + 250) + 250 else (e % 250) * (i + 250) + (i - e)
  }

  lemma Remainder(w: int, z: int)
    requires 0 <= z < 250
    ensures (250 * w + z) % 250 == z
  {
  }

  lemma MulAtMost(a: int, b: int, k: int)
    requires a <= b && k >= 0
    ensures a * k <= b * k
  {
  }

  lemma PutOffBounded(e: int, i: int)
    requires i > 0 && e >= -250
    ensures 0 < PutOff(e, i) <= 250 * (i + 250) + 250
    ensures e < i ==> PutOff(e, i) <= 250 * (i + 250)
  {
    if e < i {
      MulAtMost(0, e % 250, i + 250);
      MulAtMost(e % 250, 249, i + 250);
    }
  }

  lemma PutOffTick(e: int, i: int)
    requires e + 250 < i
    ensures PutOff(e + 250, i) == PutOff(e, i) - 250
  {
    var w, z := e / 250, e % 250;
    assert e == 250 * w + z && e + 250 == 250 * (w + 1) + z;
    Remainder(w + 1, z);
  }

  lemma PutOffSend(e: int, i: int, w: int)
    requires i == 250 * w > 0 && e + 250 >= i
    ensures PutOff(e, i) >= 250
  {
    if e < i {
      var z := e + 250 - i;
      assert e == 250 * (w - 1) + z;
      Remainder(w - 1, z);
      if z > 0 {
        MulAtMost(1, z, i + 250);
      }
    }
  }

  lemma PutOffPush(e: int, i: int, w: int, x: int)
    requires i == 250 * w > 0 && -250 <= e && i < x && e <= x <= e + 250
    ensures PutOff(e - x, i) <= PutOff(e, i)
  {
    PutOffBounded(e - x, i);
    if e < i {
      var z, y := e + 250 - i, x - i;
      assert e == 250 * (w - 1) + z && e - x == 250 * (-1) + (z - y);
      Remainder(w - 1, z);
      Remainder(-1, z - y);
      MulAtMost(z - y, z - 1, i + 250);
      assert (z - 1) * (i + 250) == z * (i + 250) - (i + 250);
    }
  }

  // ---------- the time left until the loss ----------

  ghost predicate DeadInv(cfg: Config, l: Link) {
    var last := l.nextTick - TICK;
    && ShapeInv(cfg, l.m, l.probes)
    && last <= l.now <= l.nextTick && l.lastSent <= l.now && l.lastReceived <= l.now
    && (l.m.phase in {ProbeShort, ProbeDoubling} && l.m.awaiting ==>
          l.m.sentAt.Some? && l.m.sentAt.value <= last
          && (GotResponse(l.m, l.lastReceived) || last - l.m.sentAt.value < cfg.window))
  }

  lemma DeadInvStep(cfg: Config, kp: int, l: Link, e: Event)
    requires ValidConfig(cfg) && DeadInv(cfg, l) && Can(l, e)
    ensures DeadInv(cfg, Happen(cfg, kp, l, e))
  {
    if e.Tick? {
      ShapeTick(cfg, kp, l);
    }
  }

  lemma {:induction false} DeadInvRun(cfg: Config, kp: int, l: Link, run: seq<Event>)
    requires ValidConfig(cfg) && DeadInv(cfg, l) && ValidRun(cfg, kp, l, run)
    ensures DeadInv(cfg, End(cfg, kp, l, run))
    decreases |run|
  {
    if run != [] {
      DeadInvStep(cfg, kp, l, run[0]);
      DeadInvRun(cfg, kp, Happen(cfg, kp, l, run[0]), run[1..]);
    }
  }

  lemma WholeInterval(cfg: Config, l: Link) returns (w: int)
    requires ValidConfig(cfg) && DeadInv(cfg, l) && l.m.phase in {ProbeShort, ProbeDoubling}
    ensures l.m.interval == 250 * w > 0 && cfg.short <= l.m.interval <= cfg.ceiling
  {
    var short := WholeSeconds(cfg.short);
    var ceiling := WholeSeconds(cfg.ceiling);
    ShapeBounds(cfg, l.m, l.probes);
    if l.m.phase == ProbeShort {
      w := 4 * short;
    } else {
      var doubled := DoubledWhole(short, Answered(l.m, l.probes));
      w := if l.m.interval == cfg.ceiling then 4 * ceiling else 4 * doubled;
    }
  }

  function ProbeBound(i: int): int { 250 * (i + 250) + 250 }

  function WindowBound(cfg: Config): int { cfg.window + 250 }

  function ShortBound(cfg: Config): int { ProbeBound(cfg.short) + WindowBound(cfg) }

  function StableBound(cfg: Config): int { 2 * cfg.ceiling + 500 + ShortBound(cfg) }

  function DoublingBound(cfg: Config): int { ProbeBound(cfg.ceiling) + WindowBound(cfg) + StableBound(cfg) }

  /** A probe that is out has been answered. */
  function AnsweredBound(cfg: Config): int { DoublingBound(cfg) + 250 }

  /** From any moment on, a dead link is noticed within so many ms. */
  function NoticeBound(cfg: Config): int { AnsweredBound(cfg) + 250 }

  function Await(cfg: Config, l: Link): int
    requires l.m.sentAt.Some?
  {
    cfg.window - (l.nextTick - TICK - l.m.sentAt.value) + 250
  }

  /** Something was received in the very millisecond of the next tick. */
  predicate Fresh(l: Link) { l.lastReceived >= l.nextTick }

  ghost function TimeToLoss(cfg: Config, l: Link): int
    requires DeadInv(cfg, l)
  {
    var last := l.nextTick - TICK;
    match l.m.phase
    case ProbeShort =>
      if !l.m.awaiting then
        if Fresh(l) then NoticeBound(cfg) else PutOff(last - l.lastSent, l.m.interval) + WindowBound(cfg)
      else if GotResponse(l.m, l.lastReceived) then AnsweredBound(cfg)
      else Await(cfg, l)
    case ProbeDoubling =>
      if !l.m.awaiting then
        if Fresh(l) then NoticeBound(cfg) else PutOff(last - l.lastSent, l.m.interval) + WindowBound(cfg) + StableBound(cfg)
      else if GotResponse(l.m, l.lastReceived) then AnsweredBound(cfg)
      else Await(cfg, l) + StableBound(cfg)
    case Stable => Max(2 * l.m.successHeart - (last - l.lastReceived), 0) + 250 + ShortBound(cfg)
    case _ => 0
  }

  lemma LossBounded(cfg: Config, l: Link)
    requires ValidConfig(cfg) && DeadInv(cfg, l)
    ensures 0 <= TimeToLoss(cfg, l) <= NoticeBound(cfg)
    ensures l.m.phase == ProbeDoubling && !l.m.awaiting && !Fresh(l) ==> TimeToLoss(cfg, l) <= DoublingBound(cfg)
    ensures l.m.phase == ProbeShort && !l.m.awaiting && !Fresh(l) ==> TimeToLoss(cfg, l) <= ShortBound(cfg)
    ensures l.m.phase == Stable ==> TimeToLoss(cfg, l) <= StableBound(cfg)
    ensures l.m.awaiting || l.m.phase !in {ProbeShort, ProbeDoubling} ==> TimeToLoss(cfg, l) <= AnsweredBound(cfg)
  {
    ShapeBounds(cfg, l.m, l.probes);
    if l.m.phase in {ProbeShort, ProbeDoubling} {
      PutOffBounded(l.nextTick - TICK - l.lastSent, l.m.interval);
    }
  }

  lemma LossPush(cfg: Config, kp: int, l: Link)
    requires ValidConfig(cfg) && DeadInv(cfg, l) && Can(l, Push) && l.now - l.lastSent > cfg.ceiling
    ensures DeadInv(cfg, Happen(cfg, kp, l, Push)) && TimeToLoss(cfg, Happen(cfg, kp, l, Push)) <= TimeToLoss(cfg, l)
  {
    DeadInvStep(cfg, kp, l, Push);
    if l.m.phase in {ProbeShort, ProbeDoubling} && !l.m.awaiting {
      var w := WholeInterval(cfg, l);
      PutOffPush(l.nextTick - TICK - l.lastSent, l.m.interval, w, l.now - l.lastSent);
    }
  }

  lemma LossTickWaiting(cfg: Config, kp: int, l: Link)
    requires ValidConfig(cfg) && DeadInv(cfg, l) && Can(l, Tick) && l.m.phase in {ProbeShort, ProbeDoubling} && !l.m.awaiting
    requires DeadInv(cfg, Ticked(cfg, kp, l))
    ensures TimeToLoss(cfg, Ticked(cfg, kp, l)) + TICK <= TimeToLoss(cfg, l)
  {
    var e := l.nextTick - TICK - l.lastSent;
    var w := WholeInterval(cfg, l);
    LossBounded(cfg, Ticked(cfg, kp, l));
    PutOffBounded(e, l.m.interval);
    if e + 250 < l.m.interval {
      PutOffTick(e, l.m.interval);
    } else {
      PutOffSend(e, l.m.interval, w);
    }
  }

  lemma LossTickAwaiting(cfg: Config, kp: int, l: Link)
    requires ValidConfig(cfg) && DeadInv(cfg, l) && Can(l, Tick) && l.m.phase in {ProbeShort, ProbeDoubling} && l.m.awaiting
    requires DeadInv(cfg, Ticked(cfg, kp, l))
    ensures TimeToLoss(cfg, Ticked(cfg, kp, l)) + TICK <= TimeToLoss(cfg, l)
  {
    LossBounded(cfg, Ticked(cfg, kp, l));
  }

  lemma LossTick(cfg: Config, kp: int, l: Link)
    requires ValidConfig(cfg) && DeadInv(cfg, l) && Can(l, Tick)
    ensures DeadInv(cfg, Ticked(cfg, kp, l)) && TimeToLoss(cfg, Ticked(cfg, kp, l)) + TICK <= TimeToLoss(cfg, l)
  {
    DeadInvStep(cfg, kp, l, Tick);
    if l.m.phase == Stable {
      ShapeBounds(cfg, l.m, l.probes);
      LossBounded(cfg, Ticked(cfg, kp, l));
    } else if l.m.awaiting {
      LossTickAwaiting(cfg, kp, l);
    } else {
      LossTickWaiting(cfg, kp, l);
    }
  }

  lemma {:induction false} DeadRun(cfg: Config, kp: int, gap: int, l: Link, run: seq<Event>)
    requires ValidConfig(cfg) && gap > cfg.ceiling && DeadInv(cfg, l)
    requires ValidRun(cfg, kp, l, run) && Dead(cfg, kp, gap, l, run)
    ensures DeadInv(cfg, End(cfg, kp, l, run))
    ensures TimeToLoss(cfg, End(cfg, kp, l, run)) + TICK * Ticks(run) <= TimeToLoss(cfg, l)
    decreases |run|
  {
    if run != [] {
      var l' := Happen(cfg, kp, l, run[0]);
      if run[0].Tick? {
        LossTick(cfg, kp, l);
      } else if run[0].Push? {
        LossPush(cfg, kp, l);
      } else {
        DeadInvStep(cfg, kp, l, run[0]);
      }
      DeadRun(cfg, kp, gap, l', run[1..]);
    }
  }

  // ---------- evading the probes ----------

  /** Waiting to probe the ceiling, the last packet having been sent at a tick. */
  ghost predicate Evading(cfg: Config, l: Link) {
    && AtTick(l) && l.m.phase == ProbeDoubling && !l.m.awaiting && l.m.interval == cfg.ceiling
    && 0 <= l.now - l.lastSent < cfg.ceiling && (l.now - l.lastSent) % TICK == 0
  }

  lemma NextWhole(e: int, c: int)
    requires 0 <= e < c && e % TICK == 0 && c % 1000 == 0
    ensures e + TICK <= c && (e + TICK) % TICK == 0
  {
    var w := Quarters(e);
    var v := WholeSeconds(c);
    Remainder(w + 1, 0);
  }

  lemma Quarters(e: int) returns (w: int)
    requires e % TICK == 0
    ensures e == 250 * w
  {
    w := e / TICK;
  }

  lemma DeadPrepend(cfg: Config, kp: int, gap: int, l: Link, e: Event, rest: seq<Event>)
    requires Can(l, e) && !e.Receive? && (e.Push? ==> l.now - l.lastSent >= gap)
    requires ValidRun(cfg, kp, Happen(cfg, kp, l, e), rest) && Dead(cfg, kp, gap, Happen(cfg, kp, l, e), rest)
    ensures ValidRun(cfg, kp, l, [e] + rest) && Dead(cfg, kp, gap, l, [e] + rest)
    ensures Ticks([e] + rest) == Ticks(rest) + (if e.Tick? then 1 else 0)
  {
    assert ([e] + rest)[1..] == rest;
  }

  /** PUSHes a ceiling apart, each just before the tick, keep the probe from being sent for any number of ticks. */
  lemma {:induction false} Evade(cfg: Config, kp: int, gap: int, l: Link, n: nat) returns (run: seq<Event>)
    requires ValidConfig(cfg) && gap <= cfg.ceiling && Evading(cfg, l)
    ensures ValidRun(cfg, kp, l, run) && Dead(cfg, kp, gap, l, run) && Ticks(run) == n
    decreases n
  {
    if n == 0 {
      run := [];
    } else {
      var e := l.now - l.lastSent;
      NextWhole(e, cfg.ceiling);
      var l1 := Happen(cfg, kp, l, Pass(TICK));
      if e + TICK < cfg.ceiling {
        var l2 := Happen(cfg, kp, l1, Tick);
        var rest := Evade(cfg, kp, gap, l2, n - 1);
        DeadPrepend(cfg, kp, gap, l1, Tick, rest);
        DeadPrepend(cfg, kp, gap, l, Pass(TICK), [Tick] + rest);
        run := [Pass(TICK)] + ([Tick] + rest);
      } else {
        var l2 := Happen(cfg, kp, l1, Push);
        var l3 := Happen(cfg, kp, l2, Tick);
        var rest := Evade(cfg, kp, gap, l3, n - 1);
        DeadPrepend(cfg, kp, gap, l2, Tick, rest);
        DeadPrepend(cfg, kp, gap, l1, Push, [Tick] + rest);
        DeadPrepend(cfg, kp, gap, l, Pass(TICK), [Push] + ([Tick] + rest));
        run := [Pass(TICK)] + ([Push] + ([Tick] + rest));
      }
    }
  }

  /** On the way up, with all probes answered and all packets sent at ticks. */
  ghost predicate Climbing(cfg: Config, l: Link) {
    && Quiet(cfg, l) && l.m.phase in {ProbeShort, ProbeDoubling} && (l.m.awaiting ==> l.lastReceived < l.now)
    && (l.now - l.lastSent) % TICK == 0
    && (l.m.phase == ProbeDoubling && l.m.awaiting ==> l.m.interval < cfg.ceiling)
  }

  lemma ClimbPeriod(cfg: Config, kp: int, l: Link)
    requires ValidConfig(cfg) && Climbing(cfg, l) && !Evading(cfg, l)
    ensures var l' := Period(cfg, kp, l, l.m.awaiting);
            Climbing(cfg, l') && 0 <= TimeLeft(cfg, l') < TimeLeft(cfg, l)
  {
    QuietPeriod(cfg, kp, l);
    ShapeBounds(cfg, l.m, l.probes);
  }

  lemma {:induction false} Climb(cfg: Config, kp: int, l: Link) returns (run: seq<Event>)
    requires ValidConfig(cfg) && Climbing(cfg, l) && 0 <= TimeLeft(cfg, l)
    ensures ValidRun(cfg, kp, l, run) && Evading(cfg, End(cfg, kp, l, run))
    decreases TimeLeft(cfg, l)
  {
    if Evading(cfg, l) {
      run := [];
    } else {
      ClimbPeriod(cfg, kp, l);
      var hear := l.m.awaiting;
      var rest := Climb(cfg, kp, Period(cfg, kp, l, hear));
      PrependPeriod(cfg, kp, l, hear, rest);
      run := PeriodEvents(hear) + rest;
    }
  }

  // ---------- a dead link is noticed ----------

  /** The loop ends in no other way than by declaring the loss: before that it can always tick once more. */
  lemma LoopGoesOn(cfg: Config, kp: int, l: Link)
    requires l.m.phase != Lost && l.now <= l.nextTick
    ensures ValidRun(cfg, kp, l, [Pass(l.nextTick - l.now), Tick])
  {
    var run := [Pass(l.nextTick - l.now), Tick];
    assert run[1..] == [Tick] && run[1..][1..] == [];
  }

  /** However the link has been used, once it is dead the loop ticks for at most so long. */
  ghost predicate Noticed(cfg: Config, kp: int, gap: int, start: int) {
    forall run, dead ::
      && ValidRun(cfg, kp, Begin(cfg, kp, start), run)
      && ValidRun(cfg, kp, End(cfg, kp, Begin(cfg, kp, start), run), dead)
      && Dead(cfg, kp, gap, End(cfg, kp, Begin(cfg, kp, start), run), dead)
      ==> TICK * Ticks(dead) <= NoticeBound(cfg)
  }

  /**
   From every reachable state, a link from which nothing more is received is declared lost
   within an explicit time if and only if PUSHes are more than the ceiling apart from the
   packets before them: closer ones can put off the probe of a long interval for ever, and
   while it is put off nothing looks at the time of the last reception.
   */
  lemma DeadLinkNoticedExactly(cfg: Config, kp: int, gap: int, start: int)
    requires ValidConfig(cfg)
    ensures Noticed(cfg, kp, gap, start) <==> gap > cfg.ceiling
  {
    var l0 := Begin(cfg, kp, start);
    if gap > cfg.ceiling {
      forall run, dead |
        && ValidRun(cfg, kp, l0, run) && ValidRun(cfg, kp, End(cfg, kp, l0, run), dead)
        && Dead(cfg, kp, gap, End(cfg, kp, l0, run), dead)
        ensures TICK * Ticks(dead) <= NoticeBound(cfg)
      {
        var l := End(cfg, kp, l0, run);
        DeadInvRun(cfg, kp, l0, run);
        DeadRun(cfg, kp, gap, l, dead);
        LossBounded(cfg, l);
        LossBounded(cfg, End(cfg, kp, l, dead));
      }
    } else {
      LeftPositive(cfg, l0);
      var run := Climb(cfg, kp, l0);
      var dead := Evade(cfg, kp, gap, End(cfg, kp, l0, run), NoticeBound(cfg) + 1);
      assert TICK * Ticks(dead) > NoticeBound(cfg);
    }
  }

  // ---------- and nothing else is ----------

  /** The state after the first n events of a run. */
  function After(cfg: Config, kp: int, l: Link, run: seq<Event>, n: nat): Link
    requires ValidRun(cfg, kp, l, run) && n <= |run|
    decreases n
  {
    if n == 0 then l else After(cfg, kp, Happen(cfg, kp, l, run[0]), run[1..], n - 1)
  }

  /** Event i of the run is a tick of the short phase that sends a probe. */
  predicate SendsShortProbe(cfg: Config, kp: int, l: Link, run: seq<Event>, i: nat)
    requires ValidRun(cfg, kp, l, run)
  {
    i < |run| && run[i].Tick? &&
    var s := After(cfg, kp, l, run, i);
    s.m.phase == ProbeShort && TickOf(cfg, s.m, s.now, s.lastSent, s.lastReceived).1
  }

  /** The probe sent by event i is still without an answer at a tick a whole window later. */
  ghost predicate Starves(cfg: Config, kp: int, l: Link, run: seq<Event>, i: nat)
    requires ValidRun(cfg, kp, l, run)
  {
    && SendsShortProbe(cfg, kp, l, run, i)
    && var sent := After(cfg, kp, l, run, i).now;
       && End(cfg, kp, l, run).lastReceived < sent
       && exists j :: i < j < |run| && run[j].Tick? && After(cfg, kp, l, run, j).now >= sent + cfg.window
  }

  /** A short probe sent at `sent` is out and unanswered. */
  predicate ProbeOut(cfg: Config, l: Link, sent: int) {
    l.m.phase == ProbeShort && l.m.awaiting && l.m.sentAt == Some(sent) && l.lastReceived < sent
  }

  lemma {:induction false} ReceptionsGrow(cfg: Config, kp: int, l: Link, run: seq<Event>)
    requires ValidRun(cfg, kp, l, run) && l.lastReceived <= l.now
    ensures l.lastReceived <= End(cfg, kp, l, run).lastReceived
    decreases |run|
  {
    if run != [] {
      ReceptionsGrow(cfg, kp, Happen(cfg, kp, l, run[0]), run[1..]);
    }
  }

  /** A probe that stays unanswered is lost at the first tick after its window. */
  lemma {:induction false} OutIsLost(cfg: Config, kp: int, l: Link, run: seq<Event>, sent: int, j: nat)
    requires ValidRun(cfg, kp, l, run) && l.lastReceived <= l.now && ProbeOut(cfg, l, sent)
    requires End(cfg, kp, l, run).lastReceived < sent
    requires j < |run| && run[j].Tick? && After(cfg, kp, l, run, j).now >= sent + cfg.window
    ensures End(cfg, kp, l, run).m.phase == Lost
    decreases |run|
  {
    var l' := Happen(cfg, kp, l, run[0]);
    ReceptionsGrow(cfg, kp, l', run[1..]);
    if l'.m.phase == Lost {
      assert run[1..] == [];
    } else {
      OutIsLost(cfg, kp, l', run[1..], sent, j - 1);
    }
  }

  lemma {:induction false} StarvedIsLost(cfg: Config, kp: int, l: Link, run: seq<Event>, i: nat)
    requires ValidRun(cfg, kp, l, run) && l.lastReceived <= l.now && Starves(cfg, kp, l, run, i)
    ensures End(cfg, kp, l, run).m.phase == Lost
    decreases i
  {
    var l' := Happen(cfg, kp, l, run[0]);
    var sent := After(cfg, kp, l, run, i).now;
    var j :| i < j < |run| && run[j].Tick? && After(cfg, kp, l, run, j).now >= sent + cfg.window;
    assert After(cfg, kp, l', run[1..], j - 1) == After(cfg, kp, l, run, j);
    if i == 0 {
      ReceptionsGrow(cfg, kp, l', run[1..]);
      OutIsLost(cfg, kp, l', run[1..], sent, j - 1);
    } else {
      assert run[1..][i - 1] == run[i] && run[1..][j - 1] == run[j];
      assert Starves(cfg, kp, l', run[1..], i - 1);
      StarvedIsLost(cfg, kp, l', run[1..], i - 1);
    }
  }

  /** The same of the probe that is out at the start of the run. */
  ghost predicate OutStarves(cfg: Config, kp: int, l: Link, run: seq<Event>, j: nat)
    requires ValidRun(cfg, kp, l, run)
  {
    && l.m.sentAt.Some? && ProbeOut(cfg, l, l.m.sentAt.value)
    && End(cfg, kp, l, run).lastReceived < l.m.sentAt.value
    && j < |run| && run[j].Tick? && After(cfg, kp, l, run, j).now >= l.m.sentAt.value + cfg.window
  }

  /** A run that ends in a loss either lost the probe that was out at its start, or one it sent itself. */
  lemma {:induction false} LostIsStarved(cfg: Config, kp: int, l: Link, run: seq<Event>)
    requires ValidConfig(cfg) && DeadInv(cfg, l) && ValidRun(cfg, kp, l, run)
    requires l.m.phase != Lost && End(cfg, kp, l, run).m.phase == Lost
    ensures (exists i: nat :: Starves(cfg, kp, l, run, i)) || (exists j: nat :: OutStarves(cfg, kp, l, run, j))
    decreases |run|
  {
    var l' := Happen(cfg, kp, l, run[0]);
    DeadInvStep(cfg, kp, l, run[0]);
    if l'.m.phase == Lost {
      LostNow(cfg, kp, l, run);
    } else {
      LostIsStarved(cfg, kp, l', run[1..]);
      if i: nat :| Starves(cfg, kp, l', run[1..], i) {
        StarvesLater(cfg, kp, l, run, i);
      } else {
        var j: nat :| OutStarves(cfg, kp, l', run[1..], j);
        OutStarvesLater(cfg, kp, l, run, j);
      }
    }
  }

  lemma LostNow(cfg: Config, kp: int, l: Link, run: seq<Event>)
    requires ValidConfig(cfg) && DeadInv(cfg, l) && ValidRun(cfg, kp, l, run) && run != []
    requires l.m.phase != Lost && Happen(cfg, kp, l, run[0]).m.phase == Lost
    ensures OutStarves(cfg, kp, l, run, 0)
  {
    var l' := Happen(cfg, kp, l, run[0]);
    assert run[1..] == [];
    assert End(cfg, kp, l', run[1..]) == l';
    assert After(cfg, kp, l, run, 0) == l;
  }

  lemma OutStarvesLater(cfg: Config, kp: int, l: Link, run: seq<Event>, j: nat)
    requires ValidConfig(cfg) && DeadInv(cfg, l) && ValidRun(cfg, kp, l, run) && run != []
    requires OutStarves(cfg, kp, Happen(cfg, kp, l, run[0]), run[1..], j)
    ensures OutStarves(cfg, kp, l, run, j + 1) || Starves(cfg, kp, l, run, 0)
  {
    var l' := Happen(cfg, kp, l, run[0]);
    assert After(cfg, kp, l, run, j + 1) == After(cfg, kp, l', run[1..], j) && run[j + 1] == run[1..][j];
    if !(l.m.phase == ProbeShort && l.m.awaiting && l.m.sentAt == l'.m.sentAt) {
      assert After(cfg, kp, l, run, 0) == l;
    }
  }

  lemma StarvesLater(cfg: Config, kp: int, l: Link, run: seq<Event>, i: nat)
    requires ValidRun(cfg, kp, l, run) && run != [] && Starves(cfg, kp, Happen(cfg, kp, l, run[0]), run[1..], i)
    ensures Starves(cfg, kp, l, run, i + 1)
  {
    var l' := Happen(cfg, kp, l, run[0]);
    var sent := After(cfg, kp, l', run[1..], i).now;
    var j :| i < j < |run[1..]| && run[1..][j].Tick? && After(cfg, kp, l', run[1..], j).now >= sent + cfg.window;
    assert run[1..][i] == run[i + 1] && run[1..][j] == run[j + 1];
    assert After(cfg, kp, l, run, i + 1) == After(cfg, kp, l', run[1..], i);
    assert After(cfg, kp, l, run, j + 1) == After(cfg, kp, l', run[1..], j);
  }

  /** A run ends in a loss if and only if some probe of the short phase went a whole window without any reception after it. */
  lemma LostExactly(cfg: Config, kp: int, start: int, run: seq<Event>)
    requires ValidConfig(cfg) && ValidRun(cfg, kp, Begin(cfg, kp, start), run)
    ensures End(cfg, kp, Begin(cfg, kp, start), run).m.phase == Lost <==>
            exists i: nat :: Starves(cfg, kp, Begin(cfg, kp, start), run, i)
  {
    var l := Begin(cfg, kp, start);
    if End(cfg, kp, l, run).m.phase == Lost {
      LostIsStarved(cfg, kp, l, run);
    }
    if i: nat :| Starves(cfg, kp, l, run, i) {
      StarvedIsLost(cfg, kp, l, run, i);
    }
  }
}
