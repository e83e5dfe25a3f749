/**
 The fixed heartbeat of a client (client/keepalive.go) against the keepalive reaper
 of the server (server/server.go). Times are whole milliseconds, the loop ticks
 exactly on its check interval, and packets take no time.
 */
module FixedHeartbeat {
  import opened Adaptive
  import opened AdaptiveRuns

  /** The negotiated keepalive, in seconds, if the server gave one; else the client's own. */
  function EffectiveHeartbeat(serverKp: int, own: int): int {
    if serverKp > 0 then serverKp else own
  }

  /** A quarter of the heartbeat, but at least a second. */
  function CheckInterval(kp: int): int {
    Max(250 * kp, 1000)
  }

  /** One check: is a PINGREQ due, and has the server been silent too long? */
  function Check(kp: int, now: int, lastSent: int, lastReceived: int): (bool, bool) {
    (now - lastSent >= 1000 * kp, 2 * (now - lastReceived) >= 3000 * kp)
  }

  class FixedKeepalive {
    const serverKp: int
    const own: int
    var lastSent: int

    constructor (serverKp: int, own: int, start: int)
      ensures this.serverKp == serverKp && this.own == own && lastSent == start
    {
      this.serverKp, this.own, lastSent := serverKp, own, start;
    }

    /** A heartbeat that is not positive skips the check. */
    method Tick(now: int, lastReceived: int) returns (ping: bool, lost: bool)
      modifies this
      ensures var kp := EffectiveHeartbeat(serverKp, own);
              (ping, lost) == if kp <= 0 then (false, false) else Check(kp, now, old(lastSent), lastReceived)
      ensures lastSent == if ping then now else old(lastSent)
    {
      ping, lost := false, false;
      var heartbeat := own;
      if serverKp > 0 {
        heartbeat := serverKp;
      }
      if heartbeat <= 0 {
        return;
      }
      if now - lastSent >= heartbeat * 1000 {
        ping, lastSent := true, now;
      }
      if 2 * (now - lastReceived) >= 3000 * heartbeat {
        lost := true;
      }
    }
  }

  /** `lastPing` is the last PINGREQ, or the start of the connection. */
  datatype FixedLink = FixedLink(
    now: int,
    nextTick: int,
    lastSent: int,
    lastPing: int,
    lastReceived: int,
    deadline: int,
    reaped: bool,
    lost: bool)

  function FixedBegin(kp: int, start: int): FixedLink {
    FixedLink(start, start + CheckInterval(kp), start, start, start, start + ReapAfter(kp), false, false)
  }

  predicate FixedCan(l: FixedLink, e: Event) {
    !l.lost &&
    match e
    case Pass(d) => l.now + d <= l.nextTick
    case Tick => l.now == l.nextTick
    case _ => true
  }

  function FixedSent(kp: int, l: FixedLink): FixedLink {
    l.(lastSent := l.now, deadline := l.now + ReapAfter(kp))
  }

  function FixedHappen(kp: int, l: FixedLink, e: Event): FixedLink
    requires FixedCan(l, e)
  {
    match e
    case Pass(d) => l.(now := l.now + d, reaped := l.reaped || l.now + d >= l.deadline)
    case Push => FixedSent(kp, l)
    case Receive => l.(lastReceived := l.now)
    case Tick =>
      var (ping, lost) := Check(kp, l.now, l.lastSent, l.lastReceived);
      var l' := l.(nextTick := l.nextTick + CheckInterval(kp), lost := lost);
      if ping then FixedSent(kp, l'.(lastPing := l.now)) else l'
  }

  predicate FixedValid(kp: int, l: FixedLink, run: seq<Event>)
    decreases |run|
  {
    run == [] || (FixedCan(l, run[0]) && FixedValid(kp, FixedHappen(kp, l, run[0]), run[1..]))
  }

  function FixedEnd(kp: int, l: FixedLink, run: seq<Event>): FixedLink
    requires FixedValid(kp, l, run)
    decreases |run|
  {
    if run == [] then l else FixedEnd(kp, FixedHappen(kp, l, run[0]), run[1..])
  }

  predicate FixedInv(kp: int, l: FixedLink) {
    var last := l.nextTick - CheckInterval(kp);
    && !l.reaped
    && last <= l.now <= l.nextTick && l.lastSent <= l.now
    && last - l.lastSent < 1000 * kp
    && l.deadline == l.lastSent + ReapAfter(kp)
  }

  lemma {:induction false} FixedRun(kp: int, l: FixedLink, run: seq<Event>)
    requires kp >= 2 && FixedInv(kp, l) && FixedValid(kp, l, run)
    ensures FixedInv(kp, FixedEnd(kp, l, run))
    decreases |run|
  {
    if run != [] {
      FixedRun(kp, FixedHappen(kp, l, run[0]), run[1..]);
    }
  }

  /** Between two packets of the client less than kp + max(1, kp/4) seconds pass, whatever it PUSHes. */
  lemma FixedSilence(kp: int, start: int, run: seq<Event>)
    requires kp >= 2 && FixedValid(kp, FixedBegin(kp, start), run)
    ensures var l := FixedEnd(kp, FixedBegin(kp, start), run);
            !l.reaped && l.now - l.lastSent < 1000 * kp + CheckInterval(kp) <= ReapAfter(kp)
  {
    FixedRun(kp, FixedBegin(kp, start), run);
  }

  lemma FixedPrepend(kp: int, l: FixedLink, e: Event, rest: seq<Event>)
    requires FixedCan(l, e) && FixedValid(kp, FixedHappen(kp, l, e), rest)
    ensures FixedValid(kp, l, [e] + rest)
    ensures FixedEnd(kp, l, [e] + rest) == FixedEnd(kp, FixedHappen(kp, l, e), rest)
  {
    assert ([e] + rest)[1..] == rest;
  }

  /** With a keepalive of one second, a PUSH just after a check hides the client for two. */
  lemma OneSecondReaped(start: int)
    ensures var run := [Pass(1), Push, Pass(999), Tick, Pass(1000)];
            FixedValid(1, FixedBegin(1, start), run) && FixedEnd(1, FixedBegin(1, start), run).reaped
  {
    var l0 := FixedBegin(1, start);
    var l1 := FixedHappen(1, l0, Pass(1));
    var l2 := FixedHappen(1, l1, Push);
    var l3 := FixedHappen(1, l2, Pass(999));
    var l4 := FixedHappen(1, l3, Tick);
    var l5 := FixedHappen(1, l4, Pass(1000));
    assert FixedEnd(1, l5, []).reaped;
    FixedPrepend(1, l4, Pass(1000), []);
    FixedPrepend(1, l3, Tick, [Pass(1000)]);
    FixedPrepend(1, l2, Pass(999), [Tick, Pass(1000)]);
    FixedPrepend(1, l1, Push, [Pass(999), Tick, Pass(1000)]);
    FixedPrepend(1, l0, Pass(1), [Push, Pass(999), Tick, Pass(1000)]);
  }

  ghost predicate NoFixedRunReaped(kp: int, start: int) {
    forall run :: FixedValid(kp, FixedBegin(kp, start), run) ==>
                    !FixedEnd(kp, FixedBegin(kp, start), run).reaped
  }

  /** No run is ever reaped if and only if the negotiated keepalive is not exactly one second. */
  lemma FixedNeverReapedExactly(kp: int, start: int)
    requires kp >= 1
    ensures NoFixedRunReaped(kp, start) <==> kp != 1
  {
    if kp == 1 {
      OneSecondReaped(start);
    } else {
      forall run | FixedValid(kp, FixedBegin(kp, start), run)
        ensures !FixedEnd(kp, FixedBegin(kp, start), run).reaped
      {
        FixedSilence(kp, start, run);
      }
    }
  }

  // ---------- the negotiated keepalive and the client's own ----------

  /** The loop with both numbers, against a server that arms its timer from the negotiated keepalive alone. */
  function BothBegin(serverKp: int, own: int, start: int): FixedLink {
    var kp := EffectiveHeartbeat(serverKp, own);
    FixedLink(start, start + CheckInterval(kp), start, start, start, start + ReapAfter(serverKp), false, false)
  }

  function BothSent(serverKp: int, l: FixedLink): FixedLink {
    l.(lastSent := l.now, deadline := l.now + ReapAfter(serverKp))
  }

  function BothHappen(serverKp: int, own: int, l: FixedLink, e: Event): FixedLink
    requires FixedCan(l, e)
  {
    match e
    case Pass(d) => l.(now := l.now + d, reaped := l.reaped || (serverKp > 0 && l.now + d >= l.deadline))
    case Push => BothSent(serverKp, l)
    case Receive => l.(lastReceived := l.now)
    case Tick =>
      var kp := EffectiveHeartbeat(serverKp, own);
      var (ping, lost) := Check(kp, l.now, l.lastSent, l.lastReceived);
      var l' := l.(nextTick := l.nextTick + CheckInterval(kp), lost := lost);
      if ping then BothSent(serverKp, l'.(lastPing := l.now)) else l'
  }

  predicate BothValid(serverKp: int, own: int, l: FixedLink, run: seq<Event>)
    decreases |run|
  {
    run == [] || (FixedCan(l, run[0]) && BothValid(serverKp, own, BothHappen(serverKp, own, l, run[0]), run[1..]))
  }

  function BothEnd(serverKp: int, own: int, l: FixedLink, run: seq<Event>): FixedLink
    requires BothValid(serverKp, own, l, run)
    decreases |run|
  {
    if run == [] then l else BothEnd(serverKp, own, BothHappen(serverKp, own, l, run[0]), run[1..])
  }

  /** Under a negotiated keepalive the client's own number makes no difference. */
  lemma {:induction false} OwnIgnored(serverKp: int, own: int, l: FixedLink, run: seq<Event>)
    requires serverKp > 0
    ensures BothValid(serverKp, own, l, run) <==> FixedValid(serverKp, l, run)
    ensures BothValid(serverKp, own, l, run) ==> BothEnd(serverKp, own, l, run) == FixedEnd(serverKp, l, run)
    decreases |run|
  {
    if run != [] && FixedCan(l, run[0]) {
      assert BothHappen(serverKp, own, l, run[0]) == FixedHappen(serverKp, l, run[0]);
      OwnIgnored(serverKp, own, FixedHappen(serverKp, l, run[0]), run[1..]);
    }
  }

  ghost predicate NoBothRunReaped(serverKp: int, own: int, start: int) {
    forall run :: BothValid(serverKp, own, BothBegin(serverKp, own, start), run) ==>
                    !BothEnd(serverKp, own, BothBegin(serverKp, own, start), run).reaped
  }

  /** Whatever the client's own heartbeat, no run is reaped if and only if the negotiated keepalive is not exactly one second. */
  lemma NegotiatedNeverReapedExactly(serverKp: int, own: int, start: int)
    ensures NoBothRunReaped(serverKp, own, start) <==> serverKp != 1
  {
    var l := BothBegin(serverKp, own, start);
    if serverKp > 0 {
      FixedNeverReapedExactly(serverKp, start);
      forall run: seq<Event>
        ensures BothValid(serverKp, own, l, run) <==> FixedValid(serverKp, l, run)
        ensures BothValid(serverKp, own, l, run) ==> BothEnd(serverKp, own, l, run) == FixedEnd(serverKp, l, run)
      {
        OwnIgnored(serverKp, own, l, run);
      }
      assert l == FixedBegin(serverKp, start);
    } else {
      forall run | BothValid(serverKp, own, l, run)
        ensures !BothEnd(serverKp, own, l, run).reaped
      {
        NoTimer(serverKp, own, l, run);
      }
    }
  }

  lemma {:induction false} NoTimer(serverKp: int, own: int, l: FixedLink, run: seq<Event>)
    requires serverKp <= 0 && !l.reaped && BothValid(serverKp, own, l, run)
    ensures !BothEnd(serverKp, own, l, run).reaped
    decreases |run|
  {
    if run != [] {
      NoTimer(serverKp, own, BothHappen(serverKp, own, l, run[0]), run[1..]);
    }
  }

  /** The heartbeat in force. */
  predicate InForce(serverKp: int, own: int, kp: int) {
    kp > 0 && (kp == serverKp || (serverKp <= 0 && kp == own))
  }

  predicate GapInv(kp: int, l: FixedLink) {
    var last := l.nextTick - CheckInterval(kp);
    last <= l.now <= l.nextTick && l.lastSent <= l.now && last - l.lastSent < 1000 * kp
  }

  lemma {:induction false} GapRun(serverKp: int, own: int, kp: int, l: FixedLink, run: seq<Event>)
    requires InForce(serverKp, own, kp) && GapInv(kp, l) && BothValid(serverKp, own, l, run)
    ensures GapInv(kp, BothEnd(serverKp, own, l, run))
    decreases |run|
  {
    if run != [] {
      GapRun(serverKp, own, kp, BothHappen(serverKp, own, l, run[0]), run[1..]);
    }
  }

  /**
   Between two packets of the client less than kp + max(1, kp/4) seconds pass, where kp is
   the negotiated keepalive, or the client's own heartbeat if the server has disabled its.
   */
  lemma GapBounded(serverKp: int, own: int, kp: int, start: int, run: seq<Event>)
    requires InForce(serverKp, own, kp) && BothValid(serverKp, own, BothBegin(serverKp, own, start), run)
    ensures var l := BothEnd(serverKp, own, BothBegin(serverKp, own, start), run);
            l.now - l.lastSent < 1000 * kp + CheckInterval(kp)
  {
    GapRun(serverKp, own, kp, BothBegin(serverKp, own, start), run);
  }

  // ---------- losses declared by the client ----------

  /** The link answers every ping before the next check, and no PUSH comes more than `grace` ms after the last ping. */
  predicate FixedPrompt(kp: int, grace: int, l: FixedLink, run: seq<Event>)
    requires FixedValid(kp, l, run)
    decreases |run|
  {
    run == [] ||
    (&& (run[0].Push? ==> l.now - l.lastPing <= grace)
     && (run[0].Tick? ==> l.lastReceived >= l.lastPing)
     && FixedPrompt(kp, grace, FixedHappen(kp, l, run[0]), run[1..]))
  }

  /** From a ping to the last check at which the client cannot yet declare a loss. */
  function LastChance(kp: int): int
    requires kp >= 1
  {
    if kp >= 4 then 5 * CheckInterval(kp)
    else if kp == 3 then 4 * CheckInterval(kp)
    else if kp == 2 then 2 * CheckInterval(kp)
    else CheckInterval(kp)
  }

  lemma LastChanceIsLast(kp: int)
    requires kp >= 1
    ensures LastChance(kp) < 1500 * kp <= LastChance(kp) + CheckInterval(kp)
  {
  }

  /** How long after a ping a PUSH may still come: with a later one no ping is due at the last chance. */
  function PushGrace(kp: int): int
    requires kp >= 1
  {
    LastChance(kp) - 1000 * kp
  }

  lemma PushGraceIs(kp: int)
    requires kp >= 1
    ensures PushGrace(kp) == if kp >= 4 then 250 * kp else if kp == 3 then 1000 else 0
  {
  }

  /** A number of whole check intervals, up to the fifth. */
  predicate OnGrid(kp: int, d: int) {
    var i := CheckInterval(kp);
    d == 0 || d == i || d == 2 * i || d == 3 * i || d == 4 * i || d == 5 * i
  }

  predicate PromptInv(kp: int, grace: int, l: FixedLink)
    requires kp >= 1
  {
    var last := l.nextTick - CheckInterval(kp);
    && !l.lost && last <= l.now <= l.nextTick
    && l.lastPing <= l.lastSent <= l.now && l.lastSent <= l.lastPing + Max(grace, 0)
    && OnGrid(kp, last - l.lastPing) && last - l.lastPing < LastChance(kp)
  }

  lemma PromptStep(kp: int, grace: int, l: FixedLink, e: Event)
    requires kp >= 1 && grace <= PushGrace(kp) && PromptInv(kp, grace, l) && FixedCan(l, e)
    requires e.Push? ==> l.now - l.lastPing <= grace
    requires e.Tick? ==> l.lastReceived >= l.lastPing
    ensures PromptInv(kp, grace, FixedHappen(kp, l, e))
  {
  }

  lemma {:induction false} PromptRun(kp: int, grace: int, l: FixedLink, run: seq<Event>)
    requires kp >= 1 && grace <= PushGrace(kp) && PromptInv(kp, grace, l)
    requires FixedValid(kp, l, run) && FixedPrompt(kp, grace, l, run)
    ensures PromptInv(kp, grace, FixedEnd(kp, l, run))
    decreases |run|
  {
    if run != [] {
      PromptStep(kp, grace, l, run[0]);
      PromptRun(kp, grace, FixedHappen(kp, l, run[0]), run[1..]);
    }
  }

  ghost predicate LostThough(kp: int, grace: int, l: FixedLink, run: seq<Event>) {
    FixedValid(kp, l, run) && FixedPrompt(kp, grace, l, run) && FixedEnd(kp, l, run).lost
  }

  lemma LostPrepend(kp: int, grace: int, l: FixedLink, e: Event, rest: seq<Event>)
    requires FixedCan(l, e) && LostThough(kp, grace, FixedHappen(kp, l, e), rest)
    requires e.Push? ==> l.now - l.lastPing <= grace
    requires e.Tick? ==> l.lastReceived >= l.lastPing
    ensures LostThough(kp, grace, l, [e] + rest) && Pushes([e] + rest) == Pushes(rest) + (if e.Push? then 1 else 0)
  {
    FixedPrepend(kp, l, e, rest);
    assert ([e] + rest)[1..] == rest;
  }

  function Pushes(run: seq<Event>): nat {
    if run == [] then 0 else (if run[0].Push? then 1 else 0) + Pushes(run[1..])
  }

  /** After a PUSH just past the grace, nothing more is sent or received. */
  lemma {:induction false} CoastToLoss(kp: int, grace: int, l: FixedLink) returns (run: seq<Event>)
    requires kp >= 1 && !l.lost && l.now == l.nextTick - CheckInterval(kp)
    requires l.lastReceived == l.lastPing && l.lastSent == l.lastPing + PushGrace(kp) + 1
    requires OnGrid(kp, l.now - l.lastPing) && l.now - l.lastPing <= LastChance(kp)
    ensures LostThough(kp, grace, l, run) && Pushes(run) == 0
    decreases LastChance(kp) - (l.now - l.lastPing)
  {
    var l1 := FixedHappen(kp, l, Pass(CheckInterval(kp)));
    var l2 := FixedHappen(kp, l1, Tick);
    var rest: seq<Event> := [];
    if !l2.lost {
      rest := CoastToLoss(kp, grace, l2);
    }
    LostPrepend(kp, grace, l1, Tick, rest);
    LostPrepend(kp, grace, l, Pass(CheckInterval(kp)), [Tick] + rest);
    run := [Pass(CheckInterval(kp))] + ([Tick] + rest);
  }

  /** From a check at which the grace ends: one PUSH a millisecond later is enough. */
  lemma LatePush(kp: int, grace: int, l: FixedLink) returns (run: seq<Event>)
    requires kp >= 1 && grace > PushGrace(kp) && !l.lost && l.now == l.nextTick - CheckInterval(kp)
    requires l.lastPing == l.lastSent == l.lastReceived == l.now - PushGrace(kp)
    ensures LostThough(kp, grace, l, run) && Pushes(run) == 1
  {
    var wait := CheckInterval(kp) - 1;
    var l1 := FixedHappen(kp, l, Pass(1));
    var l2 := FixedHappen(kp, l1, Push);
    var l3 := FixedHappen(kp, l2, Pass(wait));
    var l4 := FixedHappen(kp, l3, Tick);
    var rest := CoastToLoss(kp, grace, l4);
    LostPrepend(kp, grace, l3, Tick, rest);
    LostPrepend(kp, grace, l2, Pass(wait), [Tick] + rest);
    LostPrepend(kp, grace, l1, Push, [Pass(wait)] + ([Tick] + rest));
    LostPrepend(kp, grace, l, Pass(1), [Push] + ([Pass(wait)] + ([Tick] + rest)));
    run := [Pass(1)] + ([Push] + ([Pass(wait)] + ([Tick] + rest)));
  }

  /** One PUSH too late after the connection is up, and a client that is answered whenever it asks gives the link up. */
  lemma LatePushDeclaresLoss(kp: int, grace: int, start: int) returns (run: seq<Event>)
    requires kp >= 1 && grace > PushGrace(kp)
    ensures LostThough(kp, grace, FixedBegin(kp, start), run) && Pushes(run) == 1
  {
    var l := FixedBegin(kp, start);
    if kp <= 2 {
      run := LatePush(kp, grace, l);
    } else {
      var l1 := FixedHappen(kp, l, Pass(CheckInterval(kp)));
      var l2 := FixedHappen(kp, l1, Tick);
      var rest := LatePush(kp, grace, l2);
      LostPrepend(kp, grace, l1, Tick, rest);
      LostPrepend(kp, grace, l, Pass(CheckInterval(kp)), [Tick] + rest);
      run := [Pass(CheckInterval(kp))] + ([Tick] + rest);
    }
  }

  ghost predicate NoPromptRunLost(kp: int, grace: int, start: int) {
    forall run :: FixedValid(kp, FixedBegin(kp, start), run) && FixedPrompt(kp, grace, FixedBegin(kp, start), run) ==>
                    !FixedEnd(kp, FixedBegin(kp, start), run).lost
  }

  /**
   A link that answers every ping is never given up if and only if no PUSH comes later
   after a ping than the grace: a PUSH puts the next ping off by a whole heartbeat, while
   the time without reception goes on. A negative bound is a client that only pings.
   */
  lemma FixedNeverLostExactly(kp: int, grace: int, start: int)
    requires kp >= 1
    ensures NoPromptRunLost(kp, grace, start) <==> grace <= PushGrace(kp)
  {
    if grace <= PushGrace(kp) {
      forall run | FixedValid(kp, FixedBegin(kp, start), run) && FixedPrompt(kp, grace, FixedBegin(kp, start), run)
        ensures !FixedEnd(kp, FixedBegin(kp, start), run).lost
      {
        PromptRun(kp, grace, FixedBegin(kp, start), run);
      }
    } else {
      var run := LatePushDeclaresLoss(kp, grace, start);
    }
  }
}
