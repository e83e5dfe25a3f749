/**
 The adaptive heartbeat of a client (client/keepalive.go). Times and durations are
 whole milliseconds.
 */
module Adaptive {
  import opened Wrappers

  datatype Phase = ProbeShort | ProbeDoubling | ProbeFine | Stable | Lost

  /** The options the loop reads; short, maximum and fine step are in seconds. */
  datatype Options = Options(short: int, max: int, probeCount: int, window: int, fineStep: int)

  datatype Config = Config(short: int, ceiling: int, probeCount: int, window: int, fineStep: int)

  datatype Setup = Disabled | FixedCadence | Probing(cfg: Config)

  predicate ValidConfig(cfg: Config) {
    && 1000 <= cfg.short < cfg.ceiling
    && cfg.short % 1000 == 0 && cfg.ceiling % 1000 == 0
    && cfg.probeCount >= 1 && cfg.window > 0 && cfg.fineStep >= 1000
  }

  function Max(a: int, b: int): int { if a < b then b else a }
  function Min(a: int, b: int): int { if a < b then a else b }

  /** What the loop does, given the keepalive the server answered with (in seconds). */
  function Configure(o: Options, kp: int): (r: Setup)
    ensures r.Disabled? <==> kp <= 0
    ensures r.Probing? ==> ValidConfig(r.cfg) && kp >= 2 && r.cfg.ceiling <= 1000 * kp
    ensures r.Probing? ==> r.cfg.short == 1000 * Max(o.short, 1) && r.cfg.ceiling == 1000 * Min(o.max, kp)
    ensures r.Probing? && o.probeCount >= 1 ==> r.cfg.probeCount == o.probeCount
    ensures r.Probing? && o.probeCount < 1 ==> r.cfg.probeCount == 3
    ensures r.Probing? && o.window > 0 ==> r.cfg.window == o.window
    ensures r.Probing? && o.window <= 0 ==> r.cfg.window == 2000
    ensures r.Probing? ==> r.cfg.fineStep == 1000 * Max(o.fineStep, 1)
    ensures r.FixedCadence? <==> kp > 0 && Min(o.max, kp) <= Max(o.short, 1)
  {
    var short := Max(o.short * 1000, 1000);
    var max := Max(o.max * 1000, short);
    var ceiling := if kp > 0 then Min(max, kp * 1000) else max;
    if kp <= 0 then Disabled
    else if ceiling <= short then FixedCadence
    else Probing(Config(short, ceiling,
                        if o.probeCount < 1 then 3 else o.probeCount,
                        if o.window <= 0 then 2000 else o.window,
                        Max(o.fineStep * 1000, 1000)))
  }

  /** The loop's local variables; `sentAt` is `None` for Go's zero time. */
  datatype Machine = Machine(
    phase: Phase,
    shortOk: nat,
    interval: int,
    lastSuccess: int,
    successHeart: int,
    sentAt: Option<int>,
    awaiting: bool)

  function Start(cfg: Config): Machine {
    Machine(ProbeShort, 0, cfg.short, 0, 0, None, false)
  }

  predicate GotResponse(m: Machine, lastReceived: int) {
    m.sentAt.None? || lastReceived >= m.sentAt.value
  }

  predicate WindowOver(cfg: Config, m: Machine, now: int) {
    m.sentAt.None? || now - m.sentAt.value >= cfg.window
  }

  /** About nine tenths of the last interval that worked, but never below the short period. */
  function SettledHeart(cfg: Config, lastSuccess: int): int {
    if lastSuccess > 0 then Max(lastSuccess * 9 / 10, cfg.short) else cfg.short
  }

  function EnterStable(cfg: Config, m: Machine): Machine {
    m.(successHeart := SettledHeart(cfg, m.lastSuccess), phase := Stable, sentAt := None, awaiting := false)
  }

  function SendProbe(m: Machine, now: int): Machine {
    m.(sentAt := Some(now), awaiting := true)
  }

  function NextInterval(cfg: Config, m: Machine): int {
    if m.phase == ProbeDoubling then Min(m.interval * 2, cfg.ceiling) else m.interval + cfg.fineStep
  }

  function ShortTick(cfg: Config, m: Machine, now: int, lastSent: int, lastReceived: int): (Machine, bool) {
    if m.awaiting then
      if GotResponse(m, lastReceived) then
        if m.shortOk + 1 >= cfg.probeCount then
          (m.(shortOk := m.shortOk + 1, phase := ProbeDoubling, interval := cfg.short,
              lastSuccess := cfg.short, sentAt := None, awaiting := false), false)
        else
          (m.(shortOk := m.shortOk + 1, awaiting := false), false)
      else if WindowOver(cfg, m, now) then (m.(phase := Lost), false)
      else (m, false)
    else if now - lastSent >= m.interval then (SendProbe(m, now), true)
    else (m, false)
  }

  function ProbeTick(cfg: Config, m: Machine, now: int, lastSent: int, lastReceived: int): (Machine, bool) {
    if m.awaiting then
      if GotResponse(m, lastReceived) then
        var m' := m.(awaiting := false, lastSuccess := m.interval);
        var next := NextInterval(cfg, m);
        if next <= m.interval then (EnterStable(cfg, m'), false)
        else (m'.(interval := next), false)
      else if WindowOver(cfg, m, now) then (EnterStable(cfg, m), false)
      else (m, false)
    else if now - lastSent >= m.interval then (SendProbe(m, now), true)
    else (m, false)
  }

  function StableTick(cfg: Config, m: Machine, now: int, lastSent: int, lastReceived: int): (Machine, bool) {
    if 2 * (now - lastReceived) >= 3 * m.successHeart then (Start(cfg), false)
    else if now - lastSent >= m.successHeart then (SendProbe(m, now), true)
    else (m, false)
  }

  /** One tick of the loop; the flag says whether a PINGREQ is sent. */
  function TickOf(cfg: Config, m: Machine, now: int, lastSent: int, lastReceived: int): (Machine, bool) {
    match m.phase
    case ProbeShort => ShortTick(cfg, m, now, lastSent, lastReceived)
    case ProbeDoubling => ProbeTick(cfg, m, now, lastSent, lastReceived)
    case ProbeFine => ProbeTick(cfg, m, now, lastSent, lastReceived)
    case Stable => StableTick(cfg, m, now, lastSent, lastReceived)
    case Lost => (m, false)
  }

  /** The loop in place: one method call per tick. */
  class AdaptiveKeepalive {
    const cfg: Config
    var phase: Phase
    var shortOk: nat
    var intervalMillis: int
    var lastSuccessMillis: int
    var successHeartMillis: int
    var sentAt: Option<int>
    var awaiting: bool

    ghost function View(): Machine
      reads this
    {
      Machine(phase, shortOk, intervalMillis, lastSuccessMillis, successHeartMillis, sentAt, awaiting)
    }

    constructor (cfg: Config)
      ensures this.cfg == cfg && View() == Start(cfg)
    {
      this.cfg := cfg;
      phase, shortOk, intervalMillis := ProbeShort, 0, cfg.short;
      lastSuccessMillis, successHeartMillis, sentAt, awaiting := 0, 0, None, false;
    }

    method SettleDown()
      modifies this
      ensures View() == EnterStable(cfg, old(View()))
    {
      if lastSuccessMillis > 0 {
        successHeartMillis := lastSuccessMillis * 9 / 10;
        if successHeartMillis < cfg.short {
          successHeartMillis := cfg.short;
        }
      } else {
        successHeartMillis := cfg.short;
      }
      phase, sentAt, awaiting := Stable, None, false;
    }

    method TickShort(now: int, lastSent: int, lastReceived: int) returns (probe: bool)
      requires phase == ProbeShort
      modifies this
      ensures (View(), probe) == TickOf(cfg, old(View()), now, lastSent, lastReceived)
    {
      probe := false;
      if awaiting {
        if sentAt.None? || lastReceived >= sentAt.value {
          awaiting := false;
          shortOk := shortOk + 1;
          if shortOk >= cfg.probeCount {
            phase, intervalMillis, lastSuccessMillis := ProbeDoubling, cfg.short, cfg.short;
            sentAt := None;
          }
        } else if now - sentAt.value >= cfg.window {
          phase := Lost;
        }
      } else if now - lastSent >= intervalMillis {
        sentAt, awaiting, probe := Some(now), true, true;
      }
    }

    method TickProbe(now: int, lastSent: int, lastReceived: int) returns (probe: bool)
      requires phase == ProbeDoubling || phase == ProbeFine
      modifies this
      ensures (View(), probe) == TickOf(cfg, old(View()), now, lastSent, lastReceived)
    {
      probe := false;
      if awaiting {
        if sentAt.None? || lastReceived >= sentAt.value {
          awaiting := false;
          lastSuccessMillis := intervalMillis;
          var next;
          if phase == ProbeDoubling {
            next := intervalMillis * 2;
            if next > cfg.ceiling {
              next := cfg.ceiling;
            }
          } else {
            next := intervalMillis + cfg.fineStep;
          }
          if next <= intervalMillis {
            SettleDown();
          } else {
            intervalMillis := next;
          }
        } else if now - sentAt.value >= cfg.window {
          SettleDown();
        }
      } else if now - lastSent >= intervalMillis {
        sentAt, awaiting, probe := Some(now), true, true;
      }
    }

    method TickStable(now: int, lastSent: int, lastReceived: int) returns (probe: bool)
      requires phase == Stable
      modifies this
      ensures (View(), probe) == TickOf(cfg, old(View()), now, lastSent, lastReceived)
    {
      probe := false;
      if 2 * (now - lastReceived) >= 3 * successHeartMillis {
        phase, shortOk, intervalMillis := ProbeShort, 0, cfg.short;
        lastSuccessMillis, successHeartMillis, sentAt, awaiting := 0, 0, None, false;
      } else if now - lastSent >= successHeartMillis {
        sentAt, awaiting, probe := Some(now), true, true;
      }
    }

    method Tick(now: int, lastSent: int, lastReceived: int) returns (probe: bool)
      modifies this
      ensures (View(), probe) == TickOf(cfg, old(View()), now, lastSent, lastReceived)
    {
      match phase
      case ProbeShort => probe := TickShort(now, lastSent, lastReceived);
      case ProbeDoubling => probe := TickProbe(now, lastSent, lastReceived);
      case ProbeFine => probe := TickProbe(now, lastSent, lastReceived);
      case Stable => probe := TickStable(now, lastSent, lastReceived);
      case Lost => probe := false;
    }
  }
}
