/**
 The reconnect backoff of a client (client/backoff.go). Durations and times are whole
 nanoseconds; doubling and the reset threshold wrap around as 64-bit integers do. The
 jitter is computed over the reals.
 */
module Backoff {
  import opened Wrappers
  import opened Bits

  const TWO62 := 0x4000_0000_0000_0000
  const TWO63 := 0x8000_0000_0000_0000
  const TWO64 := 0x1_0000_0000_0000_0000

  /** The value of a 64-bit signed result. */
  function Wrap(x: int): int {
    (x + TWO63) % TWO64 - TWO63
  }

  lemma WrapSmall(x: int)
    requires -TWO63 <= x < TWO63
    ensures Wrap(x) == x
  {
  }

  /** The arguments of one situation; `process` is how long an attempt normally takes. */
  datatype Params = Params(init: int, max: int, process: int, skipFirst: bool)

  datatype Entry = Entry(lastSleep: int, lastError: int)

  /** The new entry, the period to sleep, and whether the error is a continued one. */
  datatype Decision = Decision(entry: Entry, sleep: int, continual: bool)

  function CappedInit(p: Params): int {
    if p.init > p.max then p.max else p.init
  }

  function FirstError(p: Params, now: int): Decision {
    if p.skipFirst then Decision(Entry(0, now), 0, false)
    else Decision(Entry(CappedInit(p), now), CappedInit(p), false)
  }

  /** `now.Sub(since)`, which saturates at the largest duration. */
  function Elapsed(since: int, now: int): int {
    if now - since < TWO63 then now - since else TWO63 - 1
  }

  /** Errors further apart than this, the last of them followed by a sleep of `sleep`, are not the same trouble. */
  function Threshold(p: Params, sleep: int): int {
    Wrap(Wrap(p.process * 2) + sleep)
  }

  predicate Resets(p: Params, e: Entry, now: int) {
    Elapsed(e.lastError, now) > Threshold(p, e.lastSleep)
  }

  function Doubled(p: Params, sleep: int): int {
    var next := Wrap(sleep * 2);
    if next <= p.max then next else p.max
  }

  function Decide(p: Params, e: Option<Entry>, now: int): Decision {
    if e.None? || Resets(p, e.value, now) then FirstError(p, now)
    else
      var sleep := if e.value.lastSleep == 0 then CappedInit(p) else Doubled(p, e.value.lastSleep);
      Decision(Entry(sleep, now), sleep, true)
  }

  class BackoffController {
    var statusMap: map<string, Entry>

    constructor ()
      ensures statusMap == map[]
    {
      statusMap := map[];
    }

    method GetBackoffSleepTime(situation: string, p: Params, now: int) returns (sleep: int, continual: bool)
      modifies this
      ensures var e := if situation in old(statusMap) then Some(old(statusMap)[situation]) else None;
              var d := Decide(p, e, now);
              statusMap == old(statusMap)[situation := d.entry] && sleep == d.sleep && continual == d.continual
    {
      var init := p.init;
      if init > p.max {
        init := p.max;
      }
      var first := true;
      if situation in statusMap {
        var status := statusMap[situation];
        if !(Elapsed(status.lastError, now) > Wrap(Wrap(p.process * 2) + status.lastSleep)) {
          first := false;
          if status.lastSleep == 0 {
            sleep := init;
          } else {
            var next := Wrap(status.lastSleep * 2);
            if next <= p.max {
              sleep := next;
            } else {
              sleep := p.max;
            }
          }
        }
      }
      if first {
        sleep := if p.skipFirst then 0 else init;
      }
      statusMap := statusMap[situation := Entry(sleep, now)];
      continual := !first;
    }
  }

  /** The periods slept when further errors of one situation happen at the given times. */
  function Sleeps(p: Params, e: Entry, times: seq<int>): seq<int>
    decreases |times|
  {
    if times == [] then []
    else
      var d := Decide(p, Some(e), times[0]);
      [d.sleep] + Sleeps(p, d.entry, times[1..])
  }

  /** All periods slept, the first error being at `start`. */
  function History(p: Params, start: int, times: seq<int>): seq<int> {
    var first := Decide(p, None, start);
    [first.sleep] + Sleeps(p, first.entry, times)
  }

  /** Whether each of these errors is reported as a continued one. */
  function Flags(p: Params, e: Entry, times: seq<int>): seq<bool>
    decreases |times|
  {
    if times == [] then []
    else
      var d := Decide(p, Some(e), times[0]);
      [d.continual] + Flags(p, d.entry, times[1..])
  }

  function AllFlags(p: Params, start: int, times: seq<int>): seq<bool> {
    var first := Decide(p, None, start);
    [first.continual] + Flags(p, first.entry, times)
  }

  /** With the largest threshold there is, no error comes too late: the time between two errors saturates there too. */
  lemma LargestNeverResets(p: Params, e: Entry, now: int)
    requires Threshold(p, e.lastSleep) == TWO63 - 1
    ensures !Resets(p, e, now)
  {
  }

  // ---------- every history, period by period ----------

  function Least(a: int, b: int): int { if a < b then a else b }

  /** What follows a period of `sleep` when the next error comes `gap` after the last. */
  predicate Follows(p: Params, sleep: int, gap: int, next: int, continual: bool) {
    && (continual <==> gap <= 2 * p.process + sleep)
    && next == if gap > 2 * p.process + sleep then (if p.skipFirst then 0 else Least(p.init, p.max))
               else if sleep == 0 then Least(p.init, p.max)
               else Least(2 * sleep, p.max)
  }

  lemma FollowsOne(p: Params, e: Entry, now: int)
    requires 0 <= p.init && 0 <= p.max < TWO62 && 0 <= p.process && 2 * p.process + p.max < TWO63 - 1
    requires 0 <= e.lastSleep <= p.max && e.lastError <= now
    ensures var d := Decide(p, Some(e), now);
            && Follows(p, e.lastSleep, now - e.lastError, d.sleep, d.continual)
            && d.entry == Entry(d.sleep, now) && 0 <= d.sleep <= p.max
  {
    WrapSmall(p.process * 2);
    WrapSmall(p.process * 2 + e.lastSleep);
    WrapSmall(2 * e.lastSleep);
  }

  lemma {:induction false} FollowsAll(p: Params, e: Entry, times: seq<int>, i: nat)
    requires 0 <= p.init && 0 <= p.max < TWO62 && 0 <= p.process && 2 * p.process + p.max < TWO63 - 1
    requires 0 <= e.lastSleep <= p.max && OnClock(e.lastError, times) && i < |times|
    ensures |Sleeps(p, e, times)| == |times| == |Flags(p, e, times)|
    ensures Follows(p, if i == 0 then e.lastSleep else Sleeps(p, e, times)[i - 1],
                    times[i] - (if i == 0 then e.lastError else times[i - 1]),
                    Sleeps(p, e, times)[i], Flags(p, e, times)[i])
    decreases |times|
  {
    FollowsOne(p, e, times[0]);
    var d := Decide(p, Some(e), times[0]);
    if |times| > 1 {
      FollowsAll(p, d.entry, times[1..], if i == 0 then 0 else i - 1);
    } else {
      assert times[1..] == [];
    }
  }

  /**
   Every history, on a clock that does not go back: the first period, whether each later
   error counts as a continued one, and each later period from the one before it.
   */
  lemma HistoryExactly(p: Params, start: int, times: seq<int>, i: nat)
    requires 0 <= p.init && 0 <= p.max < TWO62 && 0 <= p.process && 2 * p.process + p.max < TWO63 - 1
    requires OnClock(start, times) && i < |times|
    ensures |History(p, start, times)| == |times| + 1 == |AllFlags(p, start, times)|
    ensures History(p, start, times)[0] == if p.skipFirst then 0 else Least(p.init, p.max)
    ensures !AllFlags(p, start, times)[0]
    ensures Follows(p, History(p, start, times)[i], times[i] - (if i == 0 then start else times[i - 1]),
                    History(p, start, times)[i + 1], AllFlags(p, start, times)[i + 1])
  {
    FollowsAll(p, Decide(p, None, start).entry, times, i);
  }

  // ---------- the range of the sleeps ----------

  predicate Durations(p: Params) {
    0 <= p.init < TWO63 && 0 <= p.max < TWO63 && 0 <= p.process < TWO63
  }

  /** The clock does not go back. */
  predicate OnClock(from: int, times: seq<int>)
    decreases |times|
  {
    times == [] || (from <= times[0] && OnClock(times[0], times[1..]))
  }

  ghost predicate InRange(p: Params) {
    forall start, times, i :: OnClock(start, times) && 0 <= i < |History(p, start, times)| ==>
                                0 <= History(p, start, times)[i] <= p.max
  }

  /** Doubling goes out of range exactly when the period has reached 2^62 ns, some 146 years. */
  lemma DoublingInRangeExactly(p: Params, sleep: int)
    requires 0 <= sleep <= p.max < TWO63
    ensures 0 <= Doubled(p, sleep) <= p.max <==> sleep < TWO62
  {
  }

  /** The first of the doubled periods to reach 2^62 ns. */
  function Peak(p: Params, sleep: int): int
    requires 0 < sleep <= p.max && TWO62 <= p.max < TWO63
    decreases TWO63 - sleep
  {
    if sleep >= TWO62 then sleep else Peak(p, Doubled(p, sleep))
  }

  /** After a sleep of `sleep` an error can still count as a continued one. */
  predicate CanContinue(p: Params, sleep: int) {
    Threshold(p, sleep) >= 0
  }

  /** The options a client would have to be given for a period to overflow. */
  predicate CanOverflow(p: Params)
    requires Durations(p)
  {
    && p.init > 0 && p.max >= TWO62
    && CanContinue(p, FirstError(p, 0).sleep)
    && CanContinue(p, Peak(p, CappedInit(p)))
  }

  /** The periods of a history whose options do not let it overflow. */
  predicate Visited(p: Params, sleep: int)
    requires Durations(p)
  {
    var first := FirstError(p, 0).sleep;
    if CappedInit(p) == 0 || !CanContinue(p, first) then sleep == first
    else
      || (sleep == 0 && p.skipFirst)
      || (0 < sleep <= p.max && (p.max >= TWO62 ==> Peak(p, sleep) == Peak(p, CappedInit(p))))
  }

  lemma VisitedNext(p: Params, e: Entry, now: int)
    requires Durations(p) && !CanOverflow(p) && Visited(p, e.lastSleep) && e.lastError <= now
    ensures Visited(p, Decide(p, Some(e), now).sleep)
  {
  }

  lemma {:induction false} SleepsVisited(p: Params, e: Entry, times: seq<int>, i: nat)
    requires Durations(p) && !CanOverflow(p) && Visited(p, e.lastSleep)
    requires OnClock(e.lastError, times) && i < |Sleeps(p, e, times)|
    ensures Visited(p, Sleeps(p, e, times)[i])
    decreases |times|
  {
    VisitedNext(p, e, times[0]);
    if i > 0 {
      SleepsVisited(p, Decide(p, Some(e), times[0]).entry, times[1..], i - 1);
    }
  }

  lemma WrapBetween(w: int, low: int, mid: int, high: int)
    requires -TWO63 <= w < TWO63 && 0 <= low <= mid <= high < TWO63
    requires Wrap(w + low) >= 0 && Wrap(w + high) >= 0
    ensures Wrap(w + mid) >= 0
  {
  }

  /** Between the first period and the peak every period lets errors continue. */
  lemma ContinuesBetween(p: Params, sleep: int)
    requires Durations(p) && CanOverflow(p)
    requires FirstError(p, 0).sleep <= sleep <= Peak(p, CappedInit(p))
    ensures CanContinue(p, sleep)
  {
    PeakAbove(p, CappedInit(p));
    WrapBetween(Wrap(p.process * 2), FirstError(p, 0).sleep, sleep, Peak(p, CappedInit(p)));
  }

  lemma {:induction false} PeakAbove(p: Params, sleep: int)
    requires 0 < sleep <= p.max && TWO62 <= p.max < TWO63
    ensures sleep <= Peak(p, sleep) <= p.max && Peak(p, sleep) >= TWO62
    decreases TWO63 - sleep
  {
    if sleep < TWO62 {
      PeakAbove(p, Doubled(p, sleep));
    }
  }

  predicate Negative(sleeps: seq<int>, i: nat) {
    i < |sleeps| && sleeps[i] < 0
  }

  lemma PrependSleep(p: Params, e: Entry, now: int, rest: seq<int>, i: nat)
    requires e.lastError <= now && OnClock(now, rest) && Negative(Sleeps(p, Decide(p, Some(e), now).entry, rest), i)
    ensures OnClock(e.lastError, [now] + rest) && Negative(Sleeps(p, e, [now] + rest), i + 1)
  {
    assert ([now] + rest)[1..] == rest;
  }

  lemma DoublesAtOnce(p: Params, sleep: int, now: int)
    requires CanContinue(p, sleep) && sleep > 0
    ensures Decide(p, Some(Entry(sleep, now)), now).entry == Entry(Doubled(p, sleep), now)
    ensures Sleeps(p, Entry(sleep, now), [now]) == [Doubled(p, sleep)]
  {
    assert Elapsed(now, now) == 0;
  }

  /** Errors at one instant double the period until it overflows. */
  lemma {:induction false} Overflows(p: Params, sleep: int, now: int) returns (times: seq<int>, i: nat)
    requires 0 < sleep <= p.max && TWO62 <= p.max < TWO63
    requires forall s :: sleep <= s <= Peak(p, sleep) ==> CanContinue(p, s)
    ensures OnClock(now, times) && Negative(Sleeps(p, Entry(sleep, now), times), i)
    decreases TWO63 - sleep
  {
    PeakAbove(p, sleep);
    assert CanContinue(p, sleep);
    DoublesAtOnce(p, sleep, now);
    DoublingInRangeExactly(p, sleep);
    if sleep >= TWO62 {
      times, i := [now], 0;
      assert OnClock(now, times);
    } else {
      var rest, j := Overflows(p, Doubled(p, sleep), now);
      PrependSleep(p, Entry(sleep, now), now, rest, j);
      times, i := [now] + rest, j + 1;
    }
  }

  lemma OverflowHistory(p: Params, start: int)
    requires Durations(p) && CanOverflow(p)
    ensures !InRange(p)
  {
    var first := Decide(p, None, start).entry;
    forall s | CappedInit(p) <= s <= Peak(p, CappedInit(p))
      ensures CanContinue(p, s)
    {
      ContinuesBetween(p, s);
    }
    var times, i := Overflows(p, CappedInit(p), start);
    if p.skipFirst {
      PeakAbove(p, CappedInit(p));
      ContinuesBetween(p, 0);
      PrependSleep(p, first, start, times, i);
      times, i := [start] + times, i + 1;
    }
    assert OnClock(start, times) && History(p, start, times)[i + 1] < 0;
  }

  /**
   Every sleep of every history lies between zero and the maximum if and only if the
   maximum is below 2^62 ns, or errors cannot continue up to there: because the initial
   period is zero, or because the reset threshold overflows first.
   */
  lemma RangeExactly(p: Params)
    requires Durations(p)
    ensures InRange(p) <==> !CanOverflow(p)
  {
    if CanOverflow(p) {
      OverflowHistory(p, 0);
    } else {
      forall start, times, i | OnClock(start, times) && 0 <= i < |History(p, start, times)|
        ensures 0 <= History(p, start, times)[i] <= p.max
      {
        if i > 0 {
          SleepsVisited(p, Decide(p, None, start).entry, times, i - 1);
        }
      }
    }
  }

  // ---------- jitter and the reset ----------

  /** The jitter factor of a random draw from [0, 1), for a jitter of 25%. */
  function Factor(draw: real): real {
    1.0 - 0.25 + draw * (2.0 * 0.25)
  }

  /** A period times a factor, as a whole number of nanoseconds. */
  function Scaled(sleep: int, factor: real): int {
    (sleep as real * factor).Floor
  }

  function Jittered(sleep: int, draw: real): int {
    Scaled(sleep, Factor(draw))
  }

  lemma ScaledBounds(sleep: int, factor: real)
    requires 0 <= sleep && 0.75 <= factor < 1.25
    ensures 4 * Scaled(sleep, factor) > 3 * sleep - 4
    ensures if sleep > 0 then 4 * Scaled(sleep, factor) < 5 * sleep else Scaled(sleep, factor) == 0
  {
    var s := sleep as real;
    var x := s * factor;
    AtLeast(s, factor, x);
    if sleep > 0 {
      Below(s, factor, x);
    } else {
      assert x == 0.0;
    }
    FloorBounds(sleep, x);
  }

  lemma AtLeast(s: real, factor: real, x: real)
    requires 0.0 <= s && 0.75 <= factor && x == s * factor
    ensures s * 0.75 <= x
  {
    Scale(s, 0.75, factor);
  }

  lemma Below(s: real, factor: real, x: real)
    requires 0.0 < s && factor < 1.25 && x == s * factor
    ensures x < s * 1.25
  {
    ScaleStrict(s, factor, 1.25);
  }

  /** The source's bounds: three quarters of the period, and strictly less than five quarters. */
  lemma JitterBounds(sleep: int, draw: real)
    requires 0 <= sleep && 0.0 <= draw < 1.0
    ensures 4 * Jittered(sleep, draw) > 3 * sleep - 4
    ensures if sleep > 0 then 4 * Jittered(sleep, draw) < 5 * sleep else Jittered(sleep, draw) == 0
  {
    ScaledBounds(sleep, Factor(draw));
  }

  lemma FloorBounds(sleep: int, x: real)
    requires sleep as real * 0.75 <= x
    ensures 4 * x.Floor > 3 * sleep - 4
    ensures x < sleep as real * 1.25 ==> 4 * x.Floor < 5 * sleep
  {
    var f := x.Floor;
    assert f as real <= x < f as real + 1.0;
    assert (4 * f) as real == 4.0 * f as real;
    assert (3 * sleep - 4) as real == 3.0 * sleep as real - 4.0 && (5 * sleep) as real == 5.0 * sleep as real;
  }

  lemma Scale(s: real, a: real, b: real)
    requires 0.0 <= s && a <= b
    ensures s * a <= s * b
  {
  }

  lemma ScaleStrict(s: real, a: real, b: real)
    requires 0.0 < s && a < b
    ensures s * a < s * b
  {
  }

  /** How long an attempt took, and the random draw of the sleep before it. */
  datatype Attempt = Attempt(draw: real, took: int)

  predicate Ordinary(process: int, a: Attempt) {
    0.0 <= a.draw < 1.0 && 0 <= a.took <= process
  }

  /** After a sleep of `sleep` and any attempt of at most `process`, the next error still counts as a continued one. */
  ghost predicate NeverResets(sleep: int, process: int) {
    forall a: Attempt :: Ordinary(process, a) ==> Jittered(sleep, a.draw) + a.took <= 2 * process + sleep
  }

  lemma Ratio(s: real, t: real, f: real)
    requires 0.0 < s <= t && 4.0 * t < 5.0 * s && f == t / s
    ensures s * f == t && 1.0 <= f < 1.25
  {
    assert s * f == t;
    if f < 1.0 {
      ScaleStrict(s, f, 1.0);
    } else if f >= 1.25 {
      Scale(s, 1.25, f);
    }
  }

  /** Some draw reaches any whole number of nanoseconds below the upper jitter bound. */
  lemma DrawFor(sleep: int, target: int) returns (draw: real)
    requires 0 < sleep <= target && 4 * target < 5 * sleep
    ensures 0.0 <= draw < 1.0 && Jittered(sleep, draw) == target
  {
    var s, t := sleep as real, target as real;
    var factor := t / s;
    Ratio(s, t, factor);
    draw := (factor - 0.75) * 2.0;
    assert Factor(draw) == factor;
    assert t.Floor == target;
  }

  /** Jitter can never push a run of failures over the reset threshold if and only if the period is at most 4 * process + 4 ns. */
  lemma NeverResetsExactly(sleep: int, process: int)
    requires 0 <= sleep && 0 <= process
    ensures NeverResets(sleep, process) <==> sleep <= 4 * process + 4
  {
    if sleep <= 4 * process + 4 {
      forall a: Attempt | Ordinary(process, a)
        ensures Jittered(sleep, a.draw) + a.took <= 2 * process + sleep
      {
        JitterBounds(sleep, a.draw);
      }
    } else {
      var draw := DrawFor(sleep, sleep + process + 1);
      assert Ordinary(process, Attempt(draw, process));
    }
  }

  // ---------- the closed form ----------

  /** The initial period times 2^k, up to the maximum. */
  function Capped(p: Params, k: nat): int
    requires 0 <= p.init
  {
    if Shl(p.init, k) <= p.max then Shl(p.init, k) else p.max
  }

  /** The k-th sleep of a run of failures; a skipped first one shifts the rest. */
  function Expected(p: Params, k: nat): int
    requires 0 <= p.init
  {
    if !p.skipFirst then Capped(p, k) else if k == 0 then 0 else Capped(p, k - 1)
  }

  lemma {:induction false} ShlPositive(a: nat, k: nat)
    ensures Shl(a, k) > 0 <==> a > 0
  {
    if k > 0 {
      ShlPositive(a, k - 1);
    }
  }

  lemma {:induction false} ShlAtLeast(a: nat, k: nat)
    ensures Shl(a, k) >= a && (a > 0 ==> Shl(a, k) > k)
  {
    if k > 0 {
      ShlAtLeast(a, k - 1);
    }
  }

  /** One more failure takes the k-th period to the next, as long as doubling it is in range. */
  lemma NextExpected(p: Params, k: nat)
    requires 0 <= p.init && 0 <= p.max && Expected(p, k) < TWO62
    ensures 0 <= Expected(p, k) <= Expected(p, k + 1) <= p.max
    ensures Expected(p, k + 1) == if Expected(p, k) == 0 then CappedInit(p) else Doubled(p, Expected(p, k))
  {
    var j := if p.skipFirst && k > 0 then k - 1 else k;
    ShlPositive(p.init, j);
    ShlPositive(p.init, j + 1);
    assert Shl(p.init, j + 1) == 2 * Shl(p.init, j);
    WrapSmall(2 * Expected(p, k));
  }

  lemma {:induction false} ExpectedRises(p: Params, j: nat, k: nat)
    requires 0 <= p.init && 0 <= p.max && j <= k
    ensures 0 <= Expected(p, j) <= Expected(p, k) <= p.max
    decreases k - j
  {
    ShlAtLeast(p.init, k);
    if j < k {
      ExpectedRises(p, j, k - 1);
    }
  }

  lemma EntryDoubles(p: Params, e: Entry, k: nat, now: int)
    requires 0 <= p.init && 0 <= p.max && e.lastSleep == Expected(p, k) < TWO62 && !Resets(p, e, now)
    ensures Decide(p, Some(e), now).entry == Entry(Expected(p, k + 1), now)
    ensures Decide(p, Some(e), now).sleep == Expected(p, k + 1)
  {
    NextExpected(p, k);
  }

  /** None of the errors comes so late that it resets the period. */
  predicate Unbroken(p: Params, e: Entry, times: seq<int>)
    decreases |times|
  {
    times == [] || (!Resets(p, e, times[0]) && Unbroken(p, Decide(p, Some(e), times[0]).entry, times[1..]))
  }

  lemma {:induction false} UnbrokenSleeps(p: Params, e: Entry, k: nat, times: seq<int>, i: nat)
    requires 0 <= p.init && 0 <= p.max && i < |times| && Expected(p, k + i) < TWO62
    requires e.lastSleep == Expected(p, k) && Unbroken(p, e, times)
    ensures |Sleeps(p, e, times)| == |times| && Sleeps(p, e, times)[i] == Expected(p, k + 1 + i)
    decreases |times|
  {
    ExpectedRises(p, k, k + i);
    EntryDoubles(p, e, k, times[0]);
    SleepsLength(p, e, times);
    if i > 0 {
      UnbrokenSleeps(p, Decide(p, Some(e), times[0]).entry, k + 1, times[1..], i - 1);
    }
  }

  lemma {:induction false} SleepsLength(p: Params, e: Entry, times: seq<int>)
    ensures |Sleeps(p, e, times)| == |times|
    decreases |times|
  {
    if times != [] {
      SleepsLength(p, Decide(p, Some(e), times[0]).entry, times[1..]);
    }
  }

  /**
   A run of errors none of which resets sleeps init, 2 init, 4 init, ... up to the
   maximum, one step later if the first sleep is skipped: whenever the errors come, and
   as long as the period doubled is below 2^62 ns.
   */
  lemma ExponentialUnlessReset(p: Params, start: int, times: seq<int>, i: nat)
    requires 0 <= p.init && 0 <= p.max && i < |times| && Expected(p, i) < TWO62
    requires Unbroken(p, Decide(p, None, start).entry, times)
    ensures |History(p, start, times)| == |times| + 1
    ensures History(p, start, times)[0] == Expected(p, 0) && History(p, start, times)[i + 1] == Expected(p, i + 1)
  {
    UnbrokenSleeps(p, Decide(p, None, start).entry, 0, times, i);
  }

  // ---------- runs of failures under jitter ----------

  /** From one error to the next: the jittered sleep, then the attempt. */
  function Gap(sleep: int, a: Attempt): int {
    Jittered(sleep, a.draw) + a.took
  }

  /** The times of the errors that follow an entry when each attempt comes after its jittered sleep. */
  function ErrorTimes(p: Params, e: Entry, attempts: seq<Attempt>): seq<int>
    decreases |attempts|
  {
    if attempts == [] then []
    else
      var now := e.lastError + Gap(e.lastSleep, attempts[0]);
      [now] + ErrorTimes(p, Decide(p, Some(e), now).entry, attempts[1..])
  }

  predicate AllOrdinary(process: int, attempts: seq<Attempt>) {
    forall j :: 0 <= j < |attempts| ==> Ordinary(process, attempts[j])
  }

  /** A period after which some ordinary attempt is late. */
  predicate Risky(p: Params, sleep: int) {
    !(sleep <= 4 * p.process + 4 && 2 * p.process + sleep < TWO63)
  }

  lemma Continued(p: Params, e: Entry, a: Attempt)
    requires 0 <= p.process && 0 <= e.lastSleep && !Risky(p, e.lastSleep) && Ordinary(p.process, a)
    ensures !Resets(p, e, e.lastError + Gap(e.lastSleep, a))
  {
    ThresholdExact(p, e.lastSleep);
    NeverResetsExactly(e.lastSleep, p.process);
  }

  lemma {:induction false} FailuresContinue(p: Params, e: Entry, k: nat, attempts: seq<Attempt>)
    requires 0 <= p.init && 0 <= p.max && 0 <= p.process && AllOrdinary(p.process, attempts)
    requires e.lastSleep == Expected(p, k)
    requires var last := Expected(p, if attempts == [] then k else k + |attempts| - 1);
             last < TWO62 && !Risky(p, last)
    ensures Unbroken(p, e, ErrorTimes(p, e, attempts))
    decreases |attempts|
  {
    if attempts != [] {
      ExpectedRises(p, k, k + |attempts| - 1);
      Continued(p, e, attempts[0]);
      var now := e.lastError + Gap(e.lastSleep, attempts[0]);
      EntryDoubles(p, e, k, now);
      if |attempts| > 1 {
        FailuresContinue(p, Decide(p, Some(e), now).entry, k + 1, attempts[1..]);
      }
      assert attempts == [attempts[0]] + attempts[1..];
      PrependAttempt(p, e, attempts[0], attempts[1..]);
    }
  }

  /**
   A run of failures sleeps init, 2 init, 4 init, ... up to the maximum, whatever the
   jitter, as long as the last period to be doubled is at most four times the attempt time.
   */
  lemma ExponentialUnderJitter(p: Params, start: int, attempts: seq<Attempt>)
    requires 0 <= p.init && 0 <= p.max && 0 <= p.process && AllOrdinary(p.process, attempts) && attempts != []
    requires var last := Expected(p, |attempts| - 1);
             last < TWO62 && !Risky(p, last)
    ensures var sleeps := History(p, start, ErrorTimes(p, Decide(p, None, start).entry, attempts));
            |sleeps| == |attempts| + 1 && forall i :: 0 <= i <= |attempts| ==> sleeps[i] == Expected(p, i)
  {
    forall i | 0 <= i <= |attempts|
      ensures var sleeps := History(p, start, ErrorTimes(p, Decide(p, None, start).entry, attempts));
              |sleeps| == |attempts| + 1 && sleeps[i] == Expected(p, i)
    {
      JitteredSleep(p, start, attempts, i);
    }
    JitteredSleep(p, start, attempts, 0);
  }

  lemma JitteredSleep(p: Params, start: int, attempts: seq<Attempt>, i: nat)
    requires 0 <= p.init && 0 <= p.max && 0 <= p.process && AllOrdinary(p.process, attempts) && attempts != [] && i <= |attempts|
    requires var last := Expected(p, |attempts| - 1);
             last < TWO62 && !Risky(p, last)
    ensures var sleeps := History(p, start, ErrorTimes(p, Decide(p, None, start).entry, attempts));
            |sleeps| == |attempts| + 1 && sleeps[i] == Expected(p, i)
  {
    var first := Decide(p, None, start).entry;
    ErrorTimesLength(p, first, attempts);
    FailuresContinue(p, first, 0, attempts);
    var j := if i == 0 then 0 else i - 1;
    ExpectedRises(p, j, |attempts| - 1);
    ExponentialUnlessReset(p, start, ErrorTimes(p, first, attempts), j);
  }

  lemma {:induction false} ErrorTimesLength(p: Params, e: Entry, attempts: seq<Attempt>)
    ensures |ErrorTimes(p, e, attempts)| == |attempts|
    decreases |attempts|
  {
    if attempts != [] {
      var now := e.lastError + Gap(e.lastSleep, attempts[0]);
      ErrorTimesLength(p, Decide(p, Some(e), now).entry, attempts[1..]);
    }
  }

  // ---------- when jitter resets ----------

  /** An ordinary attempt that brings the next error after the threshold. */
  lemma LateAttempt(p: Params, sleep: int) returns (a: Attempt)
    requires 0 <= sleep < TWO62 && 0 <= p.process < TWO63 && Risky(p, sleep)
    ensures Ordinary(p.process, a) && forall t :: Resets(p, Entry(sleep, t), t + Gap(sleep, a))
  {
    if 2 * p.process + sleep < TWO63 {
      var draw := DrawFor(sleep, sleep + p.process + 1);
      a := Attempt(draw, p.process);
      ThresholdExact(p, sleep);
    } else {
      a := Attempt(0.5, 0);
      ExactDraw(sleep);
      ThresholdOverflows(p, sleep);
    }
  }

  lemma ThresholdExact(p: Params, sleep: int)
    requires 0 <= p.process && 0 <= sleep && 2 * p.process + sleep < TWO63
    ensures Threshold(p, sleep) == 2 * p.process + sleep
  {
    WrapSmall(p.process * 2);
    WrapSmall(p.process * 2 + sleep);
  }

  lemma ThresholdOverflows(p: Params, sleep: int)
    requires 0 <= sleep < TWO62 && 0 <= p.process < TWO63 && 2 * p.process + sleep >= TWO63
    ensures Threshold(p, sleep) < sleep
  {
  }

  /** The middle draw leaves the period as it is. */
  lemma ExactDraw(sleep: int)
    ensures Jittered(sleep, 0.5) == sleep
  {
    assert sleep as real * Factor(0.5) == sleep as real;
  }

  /** The attempts break the run; if the threshold does not overflow, the periods double up to the last attempt. */
  ghost predicate Breaks(p: Params, e: Entry, k: nat, n: nat, attempts: seq<Attempt>)
    requires 0 <= p.init
  {
    var times := ErrorTimes(p, e, attempts);
    && |attempts| == n + 1 && AllOrdinary(p.process, attempts)
    && !Unbroken(p, e, times)
    && (2 * p.process + Expected(p, k + n) < TWO63 ==> FallsBack(p, k, n, Sleeps(p, e, times)))
  }

  /** From the k-th period on: n failures on time, then one that is late. */
  lemma {:induction false} ResetRun(p: Params, e: Entry, k: nat, n: nat) returns (attempts: seq<Attempt>)
    requires 0 <= p.init && 0 <= p.max && 0 <= p.process < TWO63 && e.lastSleep == Expected(p, k)
    requires Expected(p, k + n) < TWO62 && Risky(p, Expected(p, k + n))
    ensures Breaks(p, e, k, n, attempts)
    decreases n
  {
    ExpectedRises(p, k, k + n);
    if n == 0 {
      attempts := ResetNow(p, e, k);
    } else {
      var calm := Attempt(0.5, 0);
      var now := e.lastError + Gap(e.lastSleep, calm);
      if Resets(p, e, now) {
        attempts := [calm] + seq(n, _ => calm);
        CalmBreaks(p, e, k, n, attempts);
      } else {
        EntryDoubles(p, e, k, now);
        var rest := ResetRun(p, Decide(p, Some(e), now).entry, k + 1, n - 1);
        attempts := [calm] + rest;
        BreaksLater(p, e, k, n, calm, rest);
      }
    }
  }

  lemma ResetNow(p: Params, e: Entry, k: nat) returns (attempts: seq<Attempt>)
    requires 0 <= p.init && 0 <= p.max && 0 <= p.process < TWO63 && e.lastSleep == Expected(p, k)
    requires 0 <= e.lastSleep < TWO62 && Risky(p, e.lastSleep)
    ensures Breaks(p, e, k, 0, attempts)
  {
    var a := LateAttempt(p, e.lastSleep);
    attempts := [a];
    assert e == Entry(e.lastSleep, e.lastError);
    LateOnly(p, e, a);
  }

  /** If even an exact sleep resets, the threshold has overflowed. */
  lemma CalmBreaks(p: Params, e: Entry, k: nat, n: nat, attempts: seq<Attempt>)
    requires 0 <= p.init && 0 <= p.process && 0 <= e.lastSleep <= Expected(p, k + n)
    requires |attempts| == n + 1 && AllOrdinary(p.process, attempts) && attempts[0] == Attempt(0.5, 0)
    requires Resets(p, e, e.lastError + Gap(e.lastSleep, Attempt(0.5, 0)))
    ensures Breaks(p, e, k, n, attempts)
  {
    if 2 * p.process + e.lastSleep < TWO63 {
      CalmOnTime(p, e);
    } else {
      assert attempts == [attempts[0]] + attempts[1..];
      PrependAttempt(p, e, attempts[0], attempts[1..]);
    }
  }

  lemma BreaksLater(p: Params, e: Entry, k: nat, n: nat, a: Attempt, rest: seq<Attempt>)
    requires 0 <= p.init && n > 0 && Ordinary(p.process, a)
    requires var d := Decide(p, Some(e), e.lastError + Gap(e.lastSleep, a));
             d.sleep == Expected(p, k + 1) && Breaks(p, d.entry, k + 1, n - 1, rest)
    ensures Breaks(p, e, k, n, [a] + rest)
  {
    PrependAttempt(p, e, a, rest);
    var d := Decide(p, Some(e), e.lastError + Gap(e.lastSleep, a));
    var sleeps := Sleeps(p, d.entry, ErrorTimes(p, d.entry, rest));
    if FallsBack(p, k + 1, n - 1, sleeps) {
      FallsBackLater(p, k, n, d.sleep, sleeps);
    }
  }

  lemma FallsBackLater(p: Params, k: nat, n: nat, sleep: int, rest: seq<int>)
    requires 0 <= p.init && n > 0 && sleep == Expected(p, k + 1) && FallsBack(p, k + 1, n - 1, rest)
    ensures FallsBack(p, k, n, [sleep] + rest)
  {
    forall j | 0 <= j < n
      ensures ([sleep] + rest)[j] == Expected(p, k + 1 + j)
    {
      if j > 0 {
        assert rest[j - 1] == Expected(p, k + 1 + 1 + (j - 1));
      }
    }
  }

  lemma CalmOnTime(p: Params, e: Entry)
    requires 0 <= p.process && 0 <= e.lastSleep && 2 * p.process + e.lastSleep < TWO63
    ensures !Resets(p, e, e.lastError + Gap(e.lastSleep, Attempt(0.5, 0)))
  {
    ExactDraw(e.lastSleep);
    ThresholdExact(p, e.lastSleep);
  }

  lemma PrependAttempt(p: Params, e: Entry, a: Attempt, rest: seq<Attempt>)
    ensures var now := e.lastError + Gap(e.lastSleep, a);
            var d := Decide(p, Some(e), now);
            var times, later := ErrorTimes(p, e, [a] + rest), ErrorTimes(p, d.entry, rest);
            && Sleeps(p, e, times) == [d.sleep] + Sleeps(p, d.entry, later)
            && (Unbroken(p, e, times) <==> !Resets(p, e, now) && Unbroken(p, d.entry, later))
  {
    assert ([a] + rest)[1..] == rest;
    var now := e.lastError + Gap(e.lastSleep, a);
    var later := ErrorTimes(p, Decide(p, Some(e), now).entry, rest);
    assert ErrorTimes(p, e, [a] + rest) == [now] + later;
    assert ([now] + later)[1..] == later;
  }

  /** The doubled periods after the k-th, n of them, and then the first one again. */
  predicate FallsBack(p: Params, k: nat, n: nat, sleeps: seq<int>)
    requires 0 <= p.init
  {
    && |sleeps| == n + 1 && sleeps[n] == Expected(p, 0)
    && forall j :: 0 <= j < n ==> sleeps[j] == Expected(p, k + 1 + j)
  }

  lemma LateOnly(p: Params, e: Entry, a: Attempt)
    requires 0 <= p.init && 0 <= p.max && Resets(p, e, e.lastError + Gap(e.lastSleep, a))
    ensures !Unbroken(p, e, ErrorTimes(p, e, [a]))
    ensures Sleeps(p, e, ErrorTimes(p, e, [a])) == [Expected(p, 0)]
  {
    var now := e.lastError + Gap(e.lastSleep, a);
    assert ErrorTimes(p, e, [a]) == [now];
    assert Sleeps(p, e, [now]) == [Decide(p, Some(e), now).sleep];
  }

  /** No run of n failures, with attempts that take at most their time, is ever reset. */
  ghost predicate NoRunReset(p: Params, start: int, n: nat) {
    forall attempts :: |attempts| == n && AllOrdinary(p.process, attempts) ==>
                         var first := Decide(p, None, start).entry;
                         Unbroken(p, first, ErrorTimes(p, first, attempts))
  }

  /** A run of n failures is safe from the reset if and only if its last period is at most four attempt times (and 4 ns). */
  lemma RunResetExactly(p: Params, start: int, n: nat)
    requires 0 <= p.init && 0 <= p.max && 0 <= p.process < TWO63 && n > 0 && Expected(p, n - 1) < TWO62
    ensures NoRunReset(p, start, n) <==> !Risky(p, Expected(p, n - 1))
  {
    var first := Decide(p, None, start).entry;
    if !Risky(p, Expected(p, n - 1)) {
      forall attempts | |attempts| == n && AllOrdinary(p.process, attempts)
        ensures Unbroken(p, first, ErrorTimes(p, first, attempts))
      {
        FailuresContinue(p, first, 0, attempts);
      }
    } else {
      var attempts := ResetRun(p, first, 0, n - 1);
    }
  }

  /** No run of failures of any length is reset if and only if the maximum is at most four attempt times (and 4 ns). */
  lemma FailuresNeverResetExactly(p: Params, start: int)
    requires 0 < p.init && 0 < p.max < TWO62 && 0 <= p.process < TWO63
    ensures (forall n: nat :: NoRunReset(p, start, n)) <==> !Risky(p, p.max)
  {
    var longest := p.max + 1;
    ShlAtLeast(p.init, p.max);
    ShlAtLeast(p.init, longest);
    assert Expected(p, longest) == p.max;
    RunResetExactly(p, start, longest + 1);
    if !Risky(p, p.max) {
      forall n: nat
        ensures NoRunReset(p, start, n)
      {
        if n > 0 {
          ExpectedRises(p, n - 1, n - 1);
          RunResetExactly(p, start, n);
        }
      }
    }
  }

  const SECOND := 1_000_000_000

  /** One second to ten minutes, and 30 s to connect. */
  const DEFAULTS := Params(SECOND, 600 * SECOND, 30 * SECOND, false)

  ghost predicate DefaultRun(start: int, attempts: seq<Attempt>) {
    && AllOrdinary(DEFAULTS.process, attempts)
    && History(DEFAULTS, start, ErrorTimes(DEFAULTS, Decide(DEFAULTS, None, start).entry, attempts)) ==
       [SECOND, 2 * SECOND, 4 * SECOND, 8 * SECOND, 16 * SECOND, 32 * SECOND, 64 * SECOND, 128 * SECOND, SECOND]
  }

  /** With the default options the jitter of the 128 s period can itself send a run of failures back to one second. */
  lemma DefaultsCanReset(start: int) returns (attempts: seq<Attempt>)
    ensures DefaultRun(start, attempts)
  {
    var p := DEFAULTS;
    DefaultPeriods();
    var first := Decide(p, None, start).entry;
    attempts := ResetRun(p, first, 0, 7);
    var sleeps := Sleeps(p, first, ErrorTimes(p, first, attempts));
    assert forall j :: 0 <= j < 7 ==> sleeps[j] == Expected(p, j + 1);
    assert sleeps == [2 * SECOND, 4 * SECOND, 8 * SECOND, 16 * SECOND, 32 * SECOND, 64 * SECOND, 128 * SECOND, SECOND];
  }

  lemma DefaultPeriods()
    ensures Expected(DEFAULTS, 0) == SECOND && Expected(DEFAULTS, 1) == 2 * SECOND && Expected(DEFAULTS, 2) == 4 * SECOND
    ensures Expected(DEFAULTS, 3) == 8 * SECOND && Expected(DEFAULTS, 4) == 16 * SECOND
    ensures Expected(DEFAULTS, 5) == 32 * SECOND && Expected(DEFAULTS, 6) == 64 * SECOND
    ensures Expected(DEFAULTS, 7) == 128 * SECOND
  {
    assert Shl(SECOND, 3) == 8 * SECOND;
    assert Shl(SECOND, 5) == 32 * SECOND;
  }

  /** Up to there a default run of failures doubles, whatever the jitter. */
  lemma DefaultsDoubleTo128(start: int, attempts: seq<Attempt>, i: nat)
    requires AllOrdinary(DEFAULTS.process, attempts) && i <= |attempts| <= 7
    ensures var sleeps := History(DEFAULTS, start, ErrorTimes(DEFAULTS, Decide(DEFAULTS, None, start).entry, attempts));
            i < |sleeps| && sleeps[i] == Shl(SECOND, i)
  {
    if attempts != [] {
      DefaultPeriods();
      ExpectedRises(DEFAULTS, |attempts| - 1, 6);
      ExpectedRises(DEFAULTS, i, 7);
      ExponentialUnderJitter(DEFAULTS, start, attempts);
    }
  }
}
