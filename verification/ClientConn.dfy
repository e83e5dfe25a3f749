/**
 The connection handle of a client (client/client.go) driven by the status
 protocol: `startWorkers` and `stopCommsWorkers` under `connMu`, as `Connect`,
 `reconnect`, `Disconnect` and `internalConnLost` use them. Dialling is an oracle
 that may fail or succeed; waiting for worker goroutines is left open, so any
 number of other steps may come in between.
 */
module ClientConn {
  import opened Wrappers
  import opened Status
  import opened StatusRuns
  import opened StatusProgress

  /** How far the holder of a status callback has come. */
  datatype Stage =
    | Before        // nothing done yet
    | Inside        // in startWorkers, connMu held, connection installed
    | Busy          // in startWorkers, connMu held, "already running"
    | StoppedLive   // stopCommsWorkers stopped a connection
    | StoppedNone   // stopCommsWorkers found none

  /**
   The fields behind `connMu`, with the number of connections started so far, the
   stop channels closed so far, whether some `close` panicked, and whether
   `startWorkers` ever found a connection in place. Started connections are
   numbered; number k has stop channel k.
   */
  datatype Handle = Handle(
    conn: Option<nat>,
    stop: Option<nat>,
    started: nat,
    stopped: set<nat>,
    panicked: bool,
    sawRunning: bool)

  const NO_HANDLE := Handle(None, None, 0, {}, false, false)

  /** `startWorkers`: install the new connection unless one is running. */
  function Install(h: Handle): (Handle, bool) {
    if h.conn.Some? then (h.(sawRunning := true), false)
    else (h.(conn := Some(h.started), stop := Some(h.started), started := h.started + 1), true)
  }

  /** `stopCommsWorkers`: close the stop channel and drop the connection, if there is one. */
  function Teardown(h: Handle): (Handle, bool) {
    if h.conn.None? then (h, false)
    else if h.stop.None? || h.stop.value in h.stopped then (h.(conn := None, panicked := true), true)
    else (h.(conn := None, stopped := h.stopped + {h.stop.value}), true)
  }

  class HandleCell {
    var conn: Option<nat>
    var stop: Option<nat>
    var started: nat
    var stopped: set<nat>
    var panicked: bool
    var sawRunning: bool

    ghost function View(): Handle
      reads this
    {
      Handle(conn, stop, started, stopped, panicked, sawRunning)
    }

    constructor ()
      ensures View() == NO_HANDLE
    {
      conn, stop, started, stopped := None, None, 0, {};
      panicked, sawRunning := false, false;
    }

    method StartWorkers() returns (installed: bool)
      modifies this
      ensures (View(), installed) == Install(old(View()))
    {
      if conn != None {
        sawRunning := true;
        return false;
      }
      conn := Some(started);
      stop := Some(started);
      started := started + 1;
      return true;
    }

    method StopCommsWorkers() returns (wasRunning: bool)
      modifies this
      ensures (View(), wasRunning) == Teardown(old(View()))
    {
      if conn == None {
        return false;
      }
      if stop == None || stop.value in stopped {
        panicked := true;
      } else {
        stopped := stopped + {stop.value};
      }
      conn := None;
      return true;
    }
  }

  datatype Client = Client(sys: System, stages: seq<Stage>, connMu: Option<Pid>, h: Handle)

  datatype Action =
    | Protocol(st: Step)    // a call into the protocol, or a waiting call going on
    | DialFail(p: Pid)      // connectionUp(false)
    | Start(p: Pid)         // startWorkers up to the installed connection
    | StartUp(p: Pid)       // connectionUp(true), leaving startWorkers
    | StartBusy(p: Pid)     // "already running": connectionUp(false)
    | Stop(p: Pid)          // stopCommsWorkers
    | Finish(p: Pid)        // the callback of a disconnect or a loss

  predicate RunsCallback(st: Step) {
    st.RunConnected? || st.RunDisconnected? || st.RunLossHandled?
  }

  function Actor(a: Action): Pid {
    if a.Protocol? then a.st.p else a.p
  }

  predicate Ready(k: Client, a: Action) {
    var p := Actor(a);
    p < |k.sys.procs| == |k.stages| &&
    var q, g := k.sys.procs[p], k.stages[p];
    match a
    case Protocol(st) => Enabled(k.sys, st) && !RunsCallback(st)
    // a reconnect only gives up after the status has changed under it
    case DialFail(_) => q.OwnsConnect? && g.Before? && k.sys.c.status != Reconnecting
    case Start(_) => q.OwnsConnect? && g.Before? && k.connMu.None?
    case StartUp(_) => q.OwnsConnect? && g.Inside?
    case StartBusy(_) => q.OwnsConnect? && g.Busy?
    case Stop(_) => (q.OwnsDisconnect? || q.OwnsLoss?) && g.Before? && k.connMu.None?
    case Finish(_) => (q.OwnsDisconnect? || q.OwnsLoss?) && (g.StoppedLive? || g.StoppedNone?)
  }

  /** The protocol step an action performs, if it performs one. */
  function ProtocolStep(k: Client, a: Action): Option<Step>
    requires Ready(k, a)
  {
    match a
    case Protocol(st) => Some(st)
    case DialFail(p) => Some(RunConnected(p, false))
    case StartUp(p) => Some(RunConnected(p, true))
    case StartBusy(p) => Some(RunConnected(p, false))
    case Finish(p) =>
      if k.sys.procs[p].OwnsDisconnect? then Some(RunDisconnected(p))
      else Some(RunLossHandled(p, k.stages[p].StoppedLive?))
    case _ => None
  }

  function InstallConn(k: Client, p: Pid): Client
    requires p < |k.stages|
  {
    var (h, installed) := Install(k.h);
    k.(h := h, connMu := Some(p), stages := k.stages[p := if installed then Inside else Busy])
  }

  function StopConn(k: Client, p: Pid): Client
    requires p < |k.stages|
  {
    var (h, live) := Teardown(k.h);
    k.(h := h, stages := k.stages[p := if live then StoppedLive else StoppedNone])
  }

  /** A protocol step, after which its goroutine starts afresh; `startWorkers` also unlocks. */
  function PerformStep(k: Client, st: Step, unlock: bool): Client
    requires Enabled(k.sys, st) && st.p < |k.stages|
  {
    k.(sys := Apply(k.sys, st), stages := k.stages[st.p := Before],
       connMu := if unlock then None else k.connMu)
  }

  function Act(k: Client, a: Action): Client
    requires Ready(k, a)
  {
    match a
    case Start(p) => InstallConn(k, p)
    case Stop(p) => StopConn(k, p)
    case _ => PerformStep(k, ProtocolStep(k, a).value, a.StartUp? || a.StartBusy?)
  }

  function NewClient(goroutines: nat): Client {
    Client(Initial(goroutines), seq(goroutines, _ => Before), None, NO_HANDLE)
  }

  predicate ValidRun(k: Client, run: seq<Action>)
    decreases |run|
  {
    run == [] || (Ready(k, run[0]) && ValidRun(Act(k, run[0]), run[1..]))
  }

  function FinalClient(k: Client, run: seq<Action>): Client
    requires ValidRun(k, run)
    decreases |run|
  {
    if run == [] then k else FinalClient(Act(k, run[0]), run[1..])
  }

  ghost predicate ReachableClient(k: Client) {
    exists goroutines: nat, run ::
      ValidRun(NewClient(goroutines), run) && FinalClient(NewClient(goroutines), run) == k
  }

  // ---------- the joint invariant ----------

  /** Every started connection is the current one or has had its stop channel closed. */
  ghost predicate StopsExact(h: Handle) {
    && !h.panicked
    && (h.conn.Some? ==> h.stop == h.conn && h.conn.value < h.started)
    && forall i: nat :: i in h.stopped <==> i < h.started && h.conn != Some(i)
  }

  /** What the status and the stage of the callback's holder say about the handle. */
  predicate HandleFits(status: Status, conn: Option<nat>, owner: Proc, g: Stage) {
    && (status == Connected ==> conn.Some?)
    && (status == Disconnected ==> conn.None?)
    && match owner
       case OwnsConnect => (g.Before? && conn.None?) || (g.Inside? && conn.Some?)
       case OwnsDisconnect => g.Before? || ((g.StoppedLive? || g.StoppedNone?) && conn.None?)
       case OwnsLoss(_) => g.Before? || ((g.StoppedLive? || g.StoppedNone?) && conn.None?)
       case _ => g.Before?
  }

  function StageOf(stages: seq<Stage>, owner: Option<Pid>): Stage
    requires owner.Some? ==> owner.value < |stages|
  {
    if owner.Some? then stages[owner.value] else Before
  }

  ghost predicate StagesFit(stages: seq<Stage>, connMu: Option<Pid>, owner: Option<Pid>)
    requires owner.Some? ==> owner.value < |stages|
  {
    && (forall p :: 0 <= p < |stages| && owner != Some(p) ==> stages[p].Before?)
    && connMu == if StageOf(stages, owner).Inside? then owner else None
  }

  ghost predicate ClientInvFor(k: Client, owner: Option<Pid>, heir: Option<Pid>) {
    && |k.stages| == |k.sys.procs|
    && InvFor(k.sys, owner, heir)
    && StagesFit(k.stages, k.connMu, owner)
    && !k.h.sawRunning
    && HandleFits(k.sys.c.status, k.h.conn, Role(k.sys, owner), StageOf(k.stages, owner))
    && StopsExact(k.h)
  }

  ghost predicate ClientInv(k: Client) {
    exists owner: Option<Pid>, heir: Option<Pid> :: ClientInvFor(k, owner, heir)
  }

  lemma InstallKeeps(k: Client, p: Pid, owner: Option<Pid>, heir: Option<Pid>)
    requires ClientInvFor(k, owner, heir) && Ready(k, Start(p))
    ensures ClientInvFor(Act(k, Start(p)), owner, heir)
  {
    assert Owns(k.sys.procs[p]);
  }

  lemma StopKeeps(k: Client, p: Pid, owner: Option<Pid>, heir: Option<Pid>)
    requires ClientInvFor(k, owner, heir) && Ready(k, Stop(p))
    ensures ClientInvFor(Act(k, Stop(p)), owner, heir)
  {
    assert Owns(k.sys.procs[p]);
  }

  /** The callbacks a goroutine may run at a given stage of its work. */
  predicate StageAllows(st: Step, g: Stage, status: Status) {
    match st
    case RunConnected(_, success) => if success then g.Inside? else g.Before? && status != Reconnecting
    case RunDisconnected(_) => g.StoppedLive? || g.StoppedNone?
    case RunLossHandled(_, proceed) => if proceed then g.StoppedLive? else g.StoppedNone?
    case _ => true
  }

  lemma HandleStep(c: Shared, conn: Option<nat>, q: Proc, owner: Proc, g: Stage, heir: Proc, st: Step)
    requires Coherent(c, owner, heir) && HandleFits(c.status, conn, owner, g)
    requires Owns(q) ==> owner == q
    requires IsHeir(q) ==> heir == q
    requires Enabled(System(c, [q]), st.(p := 0))
    requires RunsCallback(st) ==> StageAllows(st, g, c.status)
    ensures var (c', q') := Effect(c, q, st);
            if Owns(q') then HandleFits(c'.status, conn, q', Before)
            else if Owns(q) then HandleFits(c'.status, conn, Idle, Before)
            else HandleFits(c'.status, conn, owner, g)
  {
  }

  /** The step is one its goroutine may take now, and `connMu` is released by its holder only. */
  ghost predicate Permitted(k: Client, st: Step, unlock: bool, owner: Option<Pid>)
    requires owner.Some? ==> owner.value < |k.stages|
  {
    && Enabled(k.sys, st)
    && (RunsCallback(st) ==> owner == Some(st.p) && StageAllows(st, StageOf(k.stages, owner), k.sys.c.status))
    && (unlock <==> owner == Some(st.p) && StageOf(k.stages, owner).Inside?)
  }

  lemma CallbackPermitted(k: Client, a: Action, owner: Option<Pid>, heir: Option<Pid>)
    requires ClientInvFor(k, owner, heir) && Ready(k, a) && !a.Start? && !a.Stop?
    ensures Permitted(k, ProtocolStep(k, a).value, a.StartUp? || a.StartBusy?, owner)
  {
    var p := Actor(a);
    assert Owns(k.sys.procs[p]) <==> owner == Some(p);
  }

  lemma StagesAfter(stages: seq<Stage>, connMu: Option<Pid>, p: Pid, unlock: bool, owner: Option<Pid>, owner': Option<Pid>)
    requires p < |stages| && (owner.Some? ==> owner.value < |stages|) && StagesFit(stages, connMu, owner)
    requires owner' == Some(p) && owner != Some(p) ==> owner.None?
    requires owner' == Some(p) || owner' == if owner == Some(p) then None else owner
    requires unlock <==> owner == Some(p) && StageOf(stages, owner).Inside?
    ensures StagesFit(stages[p := Before], if unlock then None else connMu, owner')
    ensures StageOf(stages[p := Before], owner') == if owner == Some(p) || owner' != owner then Before else StageOf(stages, owner)
  {
  }

  lemma HandleAfter(k: Client, st: Step, unlock: bool, owner: Option<Pid>, heir: Option<Pid>, owner': Option<Pid>)
    requires ClientInvFor(k, owner, heir) && Permitted(k, st, unlock, owner)
    requires owner' == After(Owns, owner, st.p, Apply(k.sys, st).procs[st.p])
    requires owner'.Some? ==> owner'.value < |k.stages|
    ensures HandleFits(Apply(k.sys, st).c.status, k.h.conn, Role(Apply(k.sys, st), owner'),
                       if owner == Some(st.p) || owner' != owner then Before else StageOf(k.stages, owner))
  {
    var q := k.sys.procs[st.p];
    assert Owns(q) <==> owner == Some(st.p);
    HandleStep(k.sys.c, k.h.conn, q, Role(k.sys, owner), StageOf(k.stages, owner), Role(k.sys, heir), st);
  }

  lemma StepKeeps(k: Client, st: Step, unlock: bool, owner: Option<Pid>, heir: Option<Pid>)
    requires ClientInvFor(k, owner, heir) && Permitted(k, st, unlock, owner)
    ensures ClientInv(PerformStep(k, st, unlock))
  {
    var q := Apply(k.sys, st).procs[st.p];
    var owner', heir' := After(Owns, owner, st.p, q), After(IsHeir, heir, st.p, q);
    StepKeepsInvFor(k.sys, owner, heir, st);
    StagesAfter(k.stages, k.connMu, st.p, unlock, owner, owner');
    HandleAfter(k, st, unlock, owner, heir, owner');
    assert ClientInvFor(PerformStep(k, st, unlock), owner', heir');
  }

  lemma ActKeepsInv(k: Client, a: Action)
    requires ClientInv(k) && Ready(k, a)
    ensures ClientInv(Act(k, a))
  {
    var owner: Option<Pid>, heir: Option<Pid> :| ClientInvFor(k, owner, heir);
    if a.Start? {
      InstallKeeps(k, a.p, owner, heir);
    } else if a.Stop? {
      StopKeeps(k, a.p, owner, heir);
    } else {
      CallbackPermitted(k, a, owner, heir);
      StepKeeps(k, ProtocolStep(k, a).value, a.StartUp? || a.StartBusy?, owner, heir);
    }
  }

  lemma {:induction false} ClientRunKeepsInv(k: Client, run: seq<Action>)
    requires ClientInv(k) && ValidRun(k, run)
    ensures ClientInv(FinalClient(k, run))
    decreases |run|
  {
    if run != [] {
      ActKeepsInv(k, run[0]);
      ClientRunKeepsInv(Act(k, run[0]), run[1..]);
    }
  }

  lemma ReachableClientInv(k: Client)
    requires ReachableClient(k)
    ensures ClientInv(k)
  {
    var goroutines: nat, run :|
      ValidRun(NewClient(goroutines), run) && FinalClient(NewClient(goroutines), run) == k;
    assert ClientInvFor(NewClient(goroutines), None, None);
    ClientRunKeepsInv(NewClient(goroutines), run);
  }

  /**
   A connected client has a connection and a disconnected one has none. The
   "already running" branch of `startWorkers` is dead. Every connection ever started
   had its stop channel closed once, except the current one, whose channel is open.
   */
  lemma HandleFollowsStatus(k: Client)
    requires ReachableClient(k)
    ensures k.sys.c.status == Connected ==> k.h.conn.Some?
    ensures k.sys.c.status == Disconnected ==> k.h.conn.None?
    ensures !k.h.sawRunning && !k.h.panicked
    ensures forall i: nat :: i in k.h.stopped <==> i < k.h.started && k.h.conn != Some(i)
  {
    ReachableClientInv(k);
    var owner: Option<Pid>, heir: Option<Pid> :| ClientInvFor(k, owner, heir);
  }

  lemma ReconnectStep(k: Client, a: Action)
    requires ClientInv(k) && k.sys.c.status in {Reconnecting, Connected} && Ready(k, a)
    requires a.Protocol? ==> !IsRequest(a.st)
    ensures Act(k, a).sys.c.status in {Reconnecting, Connected}
    ensures k.sys.c.status == Connected ==> Act(k, a).sys.c.status == Connected
  {
    var owner: Option<Pid>, heir: Option<Pid> :| ClientInvFor(k, owner, heir);
    assert Owns(k.sys.procs[Actor(a)]) <==> owner == Some(Actor(a));
    assert IsHeir(k.sys.procs[Actor(a)]) <==> heir == Some(Actor(a));
  }

  predicate Unasked(run: seq<Action>) {
    forall i :: 0 <= i < |run| && run[i].Protocol? ==> !IsRequest(run[i].st)
  }

  lemma {:induction false} ReconnectRun(k: Client, run: seq<Action>)
    requires ClientInv(k) && k.sys.c.status in {Reconnecting, Connected} && ValidRun(k, run) && Unasked(run)
    ensures FinalClient(k, run).sys.c.status in {Reconnecting, Connected}
    decreases |run|
  {
    if run != [] {
      assert run[0].Protocol? ==> !IsRequest(run[0].st);
      ReconnectStep(k, run[0]);
      ActKeepsInv(k, run[0]);
      ReconnectRun(Act(k, run[0]), run[1..]);
    }
  }

  /** A lost connection is retried until it is back: in no run does a reconnect end otherwise unless someone calls in. */
  lemma ReconnectPersists(k: Client, run: seq<Action>)
    requires ReachableClient(k) && k.sys.c.status == Reconnecting && ValidRun(k, run) && Unasked(run)
    ensures FinalClient(k, run).sys.c.status in {Reconnecting, Connected}
  {
    ReachableClientInv(k);
    ReconnectRun(k, run);
  }

  // ---------- a lost connection is taken up again ----------

  /** The handler of a loss with reconnect, which has stopped a live connection or is still to do so. */
  predicate StopsLive(k: Client, p: Pid) {
    && p < |k.stages| && p < |k.sys.procs| && k.sys.procs[p] == OwnsLoss(true) && k.sys.c.willReconnect
    && ((k.stages[p].Before? && k.h.conn.Some?) || k.stages[p].StoppedLive?)
  }

  /** No disconnect request, and of the handler itself nothing but the stop. */
  predicate HandlingOnly(run: seq<Action>, p: Pid) {
    forall i :: 0 <= i < |run| ==>
                  !(run[i].Protocol? && run[i].st.CallDisconnect?) && (Actor(run[i]) == p ==> run[i].Stop?)
  }

  lemma StopsLiveStep(k: Client, p: Pid, a: Action)
    requires ClientInv(k) && StopsLive(k, p) && Ready(k, a)
    requires !(a.Protocol? && a.st.CallDisconnect?) && (Actor(a) == p ==> a.Stop?)
    ensures StopsLive(Act(k, a), p)
  {
    var owner: Option<Pid>, heir: Option<Pid> :| ClientInvFor(k, owner, heir);
    assert Owns(k.sys.procs[p]);
    assert Owns(k.sys.procs[Actor(a)]) <==> owner == Some(Actor(a));
    assert IsHeir(k.sys.procs[Actor(a)]) <==> heir == Some(Actor(a));
  }

  lemma {:induction false} StopsLiveRun(k: Client, p: Pid, run: seq<Action>)
    requires ClientInv(k) && StopsLive(k, p) && ValidRun(k, run) && HandlingOnly(run, p)
    ensures StopsLive(FinalClient(k, run), p)
    decreases |run|
  {
    if run != [] {
      assert !(run[0].Protocol? && run[0].st.CallDisconnect?) && (Actor(run[0]) == p ==> run[0].Stop?);
      StopsLiveStep(k, p, run[0]);
      ActKeepsInv(k, run[0]);
      StopsLiveRun(Act(k, run[0]), p, run[1..]);
    }
  }

  /**
   When the connection of a connected client is lost and a reconnect is wanted, stopping its
   workers finds them live, and unless a disconnect is asked for the client reconnects.
   */
  lemma LostConnectionRetried(k: Client, p: Pid, later: seq<Action>)
    requires ReachableClient(k) && k.sys.c.status == Connected && Ready(k, Protocol(CallLoss(p, true)))
    requires ValidRun(Act(k, Protocol(CallLoss(p, true))), later) && HandlingOnly(later, p)
    ensures var k' := FinalClient(Act(k, Protocol(CallLoss(p, true))), later);
            && p < |k'.stages| && (Ready(k', Finish(p)) || k'.stages[p].Before?)
            && (Ready(k', Finish(p)) ==> Act(k', Finish(p)).sys.c.status == Reconnecting)
  {
    var k1 := Act(k, Protocol(CallLoss(p, true)));
    ReachableClientInv(k);
    ActKeepsInv(k, Protocol(CallLoss(p, true)));
    LossFindsLive(k, p);
    StopsLiveRun(k1, p, later);
    ClientRunKeepsInv(k1, later);
    FinishReconnects(FinalClient(k1, later), p);
  }

  lemma LossFindsLive(k: Client, p: Pid)
    requires ClientInv(k) && k.sys.c.status == Connected && Ready(k, Protocol(CallLoss(p, true)))
    ensures StopsLive(Act(k, Protocol(CallLoss(p, true))), p)
  {
    var owner: Option<Pid>, heir: Option<Pid> :| ClientInvFor(k, owner, heir);
  }

  lemma FinishReconnects(k: Client, p: Pid)
    requires ClientInv(k) && StopsLive(k, p)
    ensures Ready(k, Finish(p)) || k.stages[p].Before?
    ensures Ready(k, Finish(p)) ==> Act(k, Finish(p)).sys.c.status == Reconnecting
  {
  }

  /** The handler of a loss that has no connection to stop. */
  predicate StopsNone(k: Client, p: Pid) {
    && p < |k.stages| && p < |k.sys.procs| && k.sys.procs[p].OwnsLoss?
    && ((k.stages[p].Before? && k.h.conn.None?) || k.stages[p].StoppedNone?)
  }

  predicate OnlyStops(run: seq<Action>, p: Pid) {
    forall i :: 0 <= i < |run| && Actor(run[i]) == p ==> run[i].Stop?
  }

  lemma StopsNoneStep(k: Client, p: Pid, a: Action)
    requires ClientInv(k) && StopsNone(k, p) && Ready(k, a) && (Actor(a) == p ==> a.Stop?)
    ensures StopsNone(Act(k, a), p)
  {
    var owner: Option<Pid>, heir: Option<Pid> :| ClientInvFor(k, owner, heir);
    assert Owns(k.sys.procs[p]);
    assert Owns(k.sys.procs[Actor(a)]) <==> owner == Some(Actor(a));
    assert IsHeir(k.sys.procs[Actor(a)]) <==> heir == Some(Actor(a));
  }

  lemma {:induction false} StopsNoneRun(k: Client, p: Pid, run: seq<Action>)
    requires ClientInv(k) && StopsNone(k, p) && ValidRun(k, run) && OnlyStops(run, p)
    ensures StopsNone(FinalClient(k, run), p)
    decreases |run|
  {
    if run != [] {
      assert Actor(run[0]) == p ==> run[0].Stop?;
      StopsNoneStep(k, p, run[0]);
      ActKeepsInv(k, run[0]);
      StopsNoneRun(Act(k, run[0]), p, run[1..]);
    }
  }

  /** A loss that has no connection to stop is not followed by a reconnect, even if one was wanted. */
  lemma NothingLostGivesUp(k: Client, p: Pid, later: seq<Action>)
    requires ReachableClient(k) && p < |k.stages| && k.stages[p].Before? && k.h.conn.None?
    requires p < |k.sys.procs| && k.sys.procs[p].OwnsLoss?
    requires ValidRun(k, later) && OnlyStops(later, p)
    ensures var k' := FinalClient(k, later);
            Ready(k', Finish(p)) ==> Act(k', Finish(p)).sys.c.status == Disconnected
  {
    ReachableClientInv(k);
    StopsNoneRun(k, p, later);
    if Ready(FinalClient(k, later), Finish(p)) {
      FinishGivesUp(FinalClient(k, later), p);
    }
  }

  lemma FinishGivesUp(k: Client, p: Pid)
    requires StopsNone(k, p) && Ready(k, Finish(p))
    ensures Act(k, Finish(p)).sys.c.status == Disconnected
  {
  }

  // ---------- the client is a user of the protocol ----------

  lemma {:induction false} ValidAppend(s: System, run: seq<Step>, st: Step)
    requires Valid(s, run) && Enabled(Final(s, run), st)
    ensures Valid(s, run + [st]) && Final(s, run + [st]) == Apply(Final(s, run), st)
    decreases |run|
  {
    if run == [] {
      assert Final(Apply(s, st), []) == Apply(s, st);
      assert [st][1..] == [] && (run + [st]) == [st];
    } else {
      ValidAppend(Apply(s, run[0]), run[1..], st);
      assert (run + [st])[1..] == run[1..] + [st];
    }
  }

  lemma ReachableStep(s: System, st: Step)
    requires Reachable(s) && Enabled(s, st)
    ensures Reachable(Apply(s, st))
  {
    var goroutines: nat, run :|
      Valid(Initial(goroutines), run) && Final(Initial(goroutines), run) == s;
    ValidAppend(Initial(goroutines), run, st);
    assert Valid(Initial(goroutines), run + [st]) && Final(Initial(goroutines), run + [st]) == Apply(s, st);
  }

  lemma {:induction false} ClientRunIsProtocolRun(k: Client, run: seq<Action>)
    requires Reachable(k.sys) && ValidRun(k, run)
    ensures Reachable(FinalClient(k, run).sys)
    decreases |run|
  {
    if run != [] {
      var st := ProtocolStep(k, run[0]);
      if st.Some? {
        ReachableStep(k.sys, st.value);
      }
      ClientRunIsProtocolRun(Act(k, run[0]), run[1..]);
    }
  }

  /** So everything proved of the protocol's reachable states holds inside the client. */
  lemma ClientUsesProtocol(k: Client)
    requires ReachableClient(k)
    ensures Reachable(k.sys)
  {
    var goroutines: nat, run :|
      ValidRun(NewClient(goroutines), run) && FinalClient(NewClient(goroutines), run) == k;
    assert Valid(Initial(goroutines), []) && Final(Initial(goroutines), []) == Initial(goroutines);
    ClientRunIsProtocolRun(NewClient(goroutines), run);
  }

  // ---------- a doomed client keeps its connection ----------

  ghost predicate Orphaned(k: Client) {
    Doomed(k.sys) && forall p :: 0 <= p < |k.sys.procs| ==> !k.sys.procs[p].OwnsConnect?
  }

  /** Once nobody owes the completion of a doomed disconnect, the handle never changes again. */
  lemma {:induction false} OrphanedForever(k: Client, run: seq<Action>)
    requires ClientInv(k) && Orphaned(k) && ValidRun(k, run)
    ensures Orphaned(FinalClient(k, run)) && FinalClient(k, run).h == k.h
    decreases |run|
  {
    if run != [] {
      var owner: Option<Pid>, heir: Option<Pid> :| ClientInvFor(k, owner, heir);
      assert Inv(k.sys);
      assert run[0].Protocol?;
      DoomLasts(k.sys, run[0].st);
      ActKeepsInv(k, run[0]);
      OrphanedForever(Act(k, run[0]), run[1..]);
    }
  }

  lemma Prepend(k: Client, a: Action, rest: seq<Action>)
    requires Ready(k, a) && ValidRun(Act(k, a), rest)
    ensures ValidRun(k, [a] + rest) && FinalClient(k, [a] + rest) == FinalClient(Act(k, a), rest)
  {
    assert ([a] + rest)[1..] == rest;
  }

  ghost predicate EndsOrphanedAlive(k: Client, run: seq<Action>) {
    ValidRun(k, run) && Orphaned(FinalClient(k, run)) && FinalClient(k, run).h.conn.Some?
  }

  lemma OrphanedFrom(k: Client) returns (run: seq<Action>)
    requires k.sys == System(Shared(Disconnecting, false, Some(0), 1, {}, false), [OwnsConnect, LossWait(false, Some(0))])
    requires k.h.conn.Some? && k.stages == [Inside, Before]
    ensures EndsOrphanedAlive(k, run)
  {
    var k4 := Act(k, StartUp(0));
    assert k4.sys == System(Shared(Disconnecting, false, None, 1, {0}, false), [Idle, LossWait(false, Some(0))]);
    var k5 := Act(k4, Protocol(WakeLoss(1)));
    assert k5.sys.procs == [Idle, Idle];
    assert FinalClient(k5, []) == k5;
    Prepend(k4, Protocol(WakeLoss(1)), []);
    run := [Protocol(WakeLoss(1))] + [];
    Prepend(k, StartUp(0), run);
    run := [StartUp(0)] + run;
  }

  /**
   It can be a live one: a loss reported while `startWorkers` is installing the
   connection leaves the workers running and nothing that would stop them.
   */
  lemma OrphanWithLiveConnection() returns (run: seq<Action>)
    ensures EndsOrphanedAlive(NewClient(2), run)
  {
    var k0 := NewClient(2);
    var k1 := Act(k0, Protocol(CallConnect(0)));
    assert k1.sys == System(Shared(Connecting, false, Some(0), 1, {}, false), [OwnsConnect, Idle]);
    var k2 := Act(k1, Start(0));
    assert k2.stages == [Inside, Before];
    var k3 := Act(k2, Protocol(CallLoss(1, false)));
    run := OrphanedFrom(k3);
    Prepend(k2, Protocol(CallLoss(1, false)), run);
    run := [Protocol(CallLoss(1, false))] + run;
    Prepend(k1, Start(0), run);
    run := [Start(0)] + run;
    Prepend(k0, Protocol(CallConnect(0)), run);
    run := [Protocol(CallConnect(0))] + run;
  }
}
