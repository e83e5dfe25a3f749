/**
 All interleavings of connection handlers, session takeovers, kicks and keepalive
 reaping on one server (server/server.go), down to the single store operations and
 compare-and-swaps they are made of.
 */
module Takeover {
  import opened Wrappers
  import opened Sessions

  /** Where the handler of a connection is. */
  datatype Handler =
    | Accepted   // CONNACK sent, not yet registered
    | Serving    // in the read loop
    | Leaving    // deferred: closed, not yet removed from the store
    | Gone

  /** Who closed a connection: of any number of closes one succeeds. */
  datatype Ender = TheHandler | TheCloser(t: nat)

  /** `byes` are the closers whose DISCONNECT went out on the connection, in order. */
  datatype Conn = Conn(device: DeviceId, active: bool, handler: Handler, byes: seq<nat>, closedBy: Option<Ender>)

  datatype Kind = TakenOver | Kicked | Reaped

  datatype Stage = CheckActive | SendBye | CloseConn | RemoveConn | Done

  /**
   A goroutine, other than its handler, that is ending a connection. A kick first looks
   whether the connection is active (`found`); `told` is whether its DISCONNECT went out.
   */
  datatype Closer = Closer(kind: Kind, c: ConnId, stage: Stage, found: bool, told: bool)

  /** `latest` remembers the connection registered last for each device, whatever became of it. */
  datatype Server = Server(
    conns: seq<Conn>,
    store: map<DeviceId, ConnId>,
    latest: map<DeviceId, ConnId>,
    closers: seq<Closer>)

  datatype Step =
    | Accept(d: DeviceId)
    | Register(c: ConnId)
    | Leave(c: ConnId)         // the handler closes its connection
    | Unregister(c: ConnId)    // and removes it from the store
    | KickDevice(d: DeviceId)  // look the device up in the store
    | TimerFires(c: ConnId)
    | Advance(t: nat)          // one operation of a closer

  predicate Enabled(s: Server, st: Step) {
    match st
    case Accept(d) => d != ""
    case Register(c) => c < |s.conns| && s.conns[c].handler == Accepted
    case Leave(c) => c < |s.conns| && s.conns[c].handler == Serving
    case Unregister(c) => c < |s.conns| && s.conns[c].handler == Leaving
    case KickDevice(d) => d in s.store
    case TimerFires(c) => c < |s.conns| && s.conns[c].handler == Serving
    case Advance(t) => t < |s.closers| && s.closers[t].stage != Done && s.closers[t].c < |s.conns|
  }

  function NextStage(t: Closer, active: bool): Stage {
    match t.stage
    case CheckActive => if active then SendBye else Done
    case SendBye => CloseConn
    case CloseConn => if t.kind == Kicked then RemoveConn else Done
    case _ => Done
  }

  /** The compare-and-swap of `Close`. */
  function Closed(k: Conn, who: Ender): Conn {
    if k.active then k.(active := false, closedBy := Some(who)) else k
  }

  /** `SendDisconnect`, which sends nothing on a closed connection. */
  function Told(k: Conn, t: nat): Conn {
    if k.active then k.(byes := k.byes + [t]) else k
  }

  function Apply(s: Server, st: Step): Server
    requires Enabled(s, st)
  {
    match st
    case Accept(d) => s.(conns := s.conns + [Conn(d, true, Accepted, [], None)])
    case Register(c) =>
      var d := s.conns[c].device;
      s.(conns := s.conns[c := s.conns[c].(handler := Serving)],
         store := s.store[d := c],
         latest := s.latest[d := c],
         closers := if d in s.store then s.closers + [Closer(TakenOver, s.store[d], SendBye, true, false)] else s.closers)
    case Leave(c) => s.(conns := s.conns[c := Closed(s.conns[c], TheHandler).(handler := Leaving)])
    case Unregister(c) =>
      s.(conns := s.conns[c := s.conns[c].(handler := Gone)],
         store := RemoveFrom(s.store, s.conns[c].device, c))
    case KickDevice(d) => s.(closers := s.closers + [Closer(Kicked, s.store[d], CheckActive, true, false)])
    case TimerFires(c) => s.(closers := s.closers + [Closer(Reaped, c, SendBye, true, false)])
    case Advance(i) =>
      var t := s.closers[i];
      var k := s.conns[t.c];
      var next := t.(stage := NextStage(t, k.active));
      match t.stage
      case CheckActive => s.(closers := s.closers[i := next.(found := k.active)])
      case SendBye => s.(closers := s.closers[i := next.(told := k.active)], conns := s.conns[t.c := Told(k, i)])
      case CloseConn => s.(closers := s.closers[i := next], conns := s.conns[t.c := Closed(k, TheCloser(i))])
      case _ => s.(closers := s.closers[i := next], store := RemoveFrom(s.store, k.device, t.c))
  }

  const EMPTY := Server([], map[], map[], [])

  predicate Valid(s: Server, run: seq<Step>)
    decreases |run|
  {
    run == [] || (Enabled(s, run[0]) && Valid(Apply(s, run[0]), run[1..]))
  }

  function Final(s: Server, run: seq<Step>): Server
    requires Valid(s, run)
    decreases |run|
  {
    if run == [] then s else Final(Apply(s, run[0]), run[1..])
  }

  // ---------- the invariant ----------

  predicate Registered(s: Server, c: ConnId) {
    c < |s.conns| && s.conns[c].handler != Accepted
  }

  predicate InStore(s: Server, c: ConnId)
    requires c < |s.conns|
  {
    s.conns[c].device in s.store && s.store[s.conns[c].device] == c
  }

  predicate IsLatest(s: Server, c: ConnId)
    requires c < |s.conns|
  {
    s.conns[c].device in s.latest && s.latest[s.conns[c].device] == c
  }

  predicate TakingOver(t: Closer, c: ConnId) {
    t.kind == TakenOver && t.c == c && t.stage != Done
  }

  ghost predicate BeingTakenOver(s: Server, c: ConnId) {
    exists i :: 0 <= i < |s.closers| && TakingOver(s.closers[i], c)
  }

  ghost predicate Named(s: Server) {
    && (forall c :: 0 <= c < |s.conns| ==> s.conns[c].device != "")
    && (forall d :: d in s.latest ==> Registered(s, s.latest[d]) && s.conns[s.latest[d]].device == d)
    && (forall d :: d in s.store ==> d in s.latest && s.store[d] == s.latest[d])
  }

  /** Whatever is active and registered is in the store, or a takeover is about to close it. */
  ghost predicate ActiveCovered(s: Server) {
    forall c: ConnId :: Registered(s, c) && s.conns[c].active ==> InStore(s, c) || BeingTakenOver(s, c)
  }

  /** A closer ends a registered connection; it removes only what it has closed, and takes over only what is superseded. */
  predicate CloserFits(s: Server, t: Closer) {
    && Registered(s, t.c)
    && (t.stage == RemoveConn ==> !s.conns[t.c].active)
    && (t.kind == TakenOver ==> t.stage in {SendBye, CloseConn, Done} && !IsLatest(s, t.c))
  }

  ghost predicate ClosersFit(s: Server) {
    forall i :: 0 <= i < |s.closers| ==> CloserFits(s, s.closers[i])
  }

  ghost predicate HandlersFit(s: Server) {
    forall c :: 0 <= c < |s.conns| && s.conns[c].handler in {Leaving, Gone} ==> !s.conns[c].active
  }

  ghost predicate TakeoversUnique(closers: seq<Closer>) {
    forall i, j :: 0 <= i < j < |closers| && closers[i].kind == TakenOver && closers[j].kind == TakenOver ==>
                     closers[i].c != closers[j].c
  }

  ghost predicate Inv(s: Server) {
    Named(s) && ActiveCovered(s) && ClosersFit(s) && HandlersFit(s) && TakeoversUnique(s.closers)
  }

  // ---------- each step keeps it ----------

  /** The shape of the state after any step: what was registered stays so, under the same device. */
  lemma StepShape(s: Server, st: Step)
    requires Enabled(s, st)
    ensures var s' := Apply(s, st);
            && |s.conns| <= |s'.conns| && |s.closers| <= |s'.closers|
            && (forall c :: 0 <= c < |s.conns| ==>
                  && s'.conns[c].device == s.conns[c].device
                  && (Registered(s, c) ==> Registered(s', c))
                  && (s'.conns[c].active ==> s.conns[c].active))
            && (forall i :: 0 <= i < |s.closers| ==> s'.closers[i].kind == s.closers[i].kind && s'.closers[i].c == s.closers[i].c)
  {
  }

  lemma NamedStep(s: Server, st: Step)
    requires Named(s) && Enabled(s, st)
    ensures Named(Apply(s, st))
  {
    var s' := Apply(s, st);
    StepShape(s, st);
    forall d | d in s'.latest
      ensures Registered(s', s'.latest[d]) && s'.conns[s'.latest[d]].device == d
    {
      if !st.Register? || s.conns[st.c].device != d {
        assert d in s.latest && s'.latest[d] == s.latest[d];
      }
    }
    forall d | d in s'.store
      ensures d in s'.latest && s'.store[d] == s'.latest[d]
    {
      StoredIsLatest(s, st, d);
    }
  }

  lemma StoredIsLatest(s: Server, st: Step, d: DeviceId)
    requires Named(s) && Enabled(s, st) && d in Apply(s, st).store
    ensures d in Apply(s, st).latest && Apply(s, st).store[d] == Apply(s, st).latest[d]
  {
    if !st.Register? || s.conns[st.c].device != d {
      assert d in s.store;
    }
  }

  lemma HandlersStep(s: Server, st: Step)
    requires Inv(s) && Enabled(s, st)
    ensures HandlersFit(Apply(s, st))
  {
    var s' := Apply(s, st);
    forall c | 0 <= c < |s'.conns| && s'.conns[c].handler in {Leaving, Gone}
      ensures !s'.conns[c].active
    {
    }
  }

  /** A superseded connection can never become the latest again. */
  lemma StaysSuperseded(s: Server, st: Step, c: ConnId)
    requires Inv(s) && Enabled(s, st) && Registered(s, c) && !IsLatest(s, c)
    ensures Registered(Apply(s, st), c) && !IsLatest(Apply(s, st), c)
  {
    StepShape(s, st);
  }

  lemma ClosersStep(s: Server, st: Step)
    requires Inv(s) && Enabled(s, st)
    ensures ClosersFit(Apply(s, st))
  {
    var s' := Apply(s, st);
    StepShape(s, st);
    forall i | 0 <= i < |s'.closers|
      ensures CloserFits(s', s'.closers[i])
    {
      if i < |s.closers| {
        OldCloserStep(s, st, i);
      } else {
        NewCloserStep(s, st);
      }
    }
  }

  lemma OldCloserStep(s: Server, st: Step, i: nat)
    requires Inv(s) && Enabled(s, st) && i < |s.closers|
    ensures CloserFits(Apply(s, st), Apply(s, st).closers[i])
  {
    StepShape(s, st);
    var t := s.closers[i];
    assert CloserFits(s, t);
    if t.kind == TakenOver {
      StaysSuperseded(s, st, t.c);
    }
  }

  lemma NewCloserStep(s: Server, st: Step)
    requires Inv(s) && Enabled(s, st) && |Apply(s, st).closers| > |s.closers|
    ensures |Apply(s, st).closers| == |s.closers| + 1
    ensures CloserFits(Apply(s, st), Apply(s, st).closers[|s.closers|])
  {
    StepShape(s, st);
  }

  lemma UniqueStep(s: Server, st: Step)
    requires Inv(s) && Enabled(s, st)
    ensures TakeoversUnique(Apply(s, st).closers)
  {
    var s' := Apply(s, st);
    StepShape(s, st);
    if st.Register? && s.conns[st.c].device in s.store {
      var prev := s.store[s.conns[st.c].device];
      assert IsLatest(s, prev);
      forall i | 0 <= i < |s.closers| && s.closers[i].kind == TakenOver
        ensures s.closers[i].c != prev
      {
        assert CloserFits(s, s.closers[i]);
      }
    }
  }

  lemma TakeoverContinues(s: Server, st: Step, c: ConnId)
    requires Inv(s) && Enabled(s, st) && c < |s.conns| && BeingTakenOver(s, c)
    ensures !Apply(s, st).conns[c].active || BeingTakenOver(Apply(s, st), c)
  {
    var s' := Apply(s, st);
    var i :| 0 <= i < |s.closers| && TakingOver(s.closers[i], c);
    assert CloserFits(s, s.closers[i]);
    assert !s'.conns[c].active || TakingOver(s'.closers[i], c);
  }

  lemma ActiveStep(s: Server, st: Step)
    requires Inv(s) && Enabled(s, st)
    ensures ActiveCovered(Apply(s, st))
  {
    var s' := Apply(s, st);
    StepShape(s, st);
    forall c: ConnId | Registered(s', c) && s'.conns[c].active
      ensures InStore(s', c) || BeingTakenOver(s', c)
    {
      if Registered(s, c) {
        if BeingTakenOver(s, c) {
          TakeoverContinues(s, st, c);
        } else {
          StoredStep(s, st, c);
        }
      }
    }
  }

  /** An active connection leaves the store only by being taken over. */
  lemma StoredStep(s: Server, st: Step, c: ConnId)
    requires Inv(s) && Enabled(s, st) && Registered(s, c) && InStore(s, c)
    requires Apply(s, st).conns[c].active
    ensures InStore(Apply(s, st), c) || BeingTakenOver(Apply(s, st), c)
  {
    var s' := Apply(s, st);
    StepShape(s, st);
    if st.Register? && s.conns[st.c].device == s.conns[c].device {
      assert TakingOver(s'.closers[|s.closers|], c);
    } else if st.Advance? {
      assert CloserFits(s, s.closers[st.t]);
    }
  }

  lemma StepKeepsInv(s: Server, st: Step)
    requires Inv(s) && Enabled(s, st)
    ensures Inv(Apply(s, st))
  {
    NamedStep(s, st);
    ActiveStep(s, st);
    ClosersStep(s, st);
    HandlersStep(s, st);
    UniqueStep(s, st);
  }

  lemma {:induction false} RunKeepsInv(s: Server, run: seq<Step>)
    requires Inv(s) && Valid(s, run)
    ensures Inv(Final(s, run))
    decreases |run|
  {
    if run != [] {
      StepKeepsInv(s, run[0]);
      RunKeepsInv(Apply(s, run[0]), run[1..]);
    }
  }

  // ---------- what it means ----------

  /**
   In every interleaving, an entry of the store is the latest connection registered
   for its device, under that connection's own non-empty ID. Any other registered
   connection that is still active has a takeover on the way to close it; a connection
   is taken over at most once.
   */
  lemma TakeoverSafe(run: seq<Step>)
    requires Valid(EMPTY, run)
    ensures var s := Final(EMPTY, run);
            && (forall d :: d in s.store ==>
                  d != "" && Registered(s, s.store[d]) && s.conns[s.store[d]].device == d && IsLatest(s, s.store[d]))
            && (forall c: ConnId :: Registered(s, c) && s.conns[c].active && !InStore(s, c) ==> BeingTakenOver(s, c))
            && TakeoversUnique(s.closers)
  {
    RunKeepsInv(EMPTY, run);
  }

  /** The latest connection of a device stays in the store while it is active: no old handler or kick evicts it. */
  lemma LatestStaysReachable(run: seq<Step>, c: ConnId)
    requires Valid(EMPTY, run)
    requires var s := Final(EMPTY, run); Registered(s, c) && s.conns[c].active && IsLatest(s, c)
    ensures InStore(Final(EMPTY, run), c)
  {
    RunKeepsInv(EMPTY, run);
    var s := Final(EMPTY, run);
    assert forall i :: 0 <= i < |s.closers| && s.closers[i].c == c ==> CloserFits(s, s.closers[i]) && !TakingOver(s.closers[i], c);
    assert !BeingTakenOver(s, c);
  }

  /** Once the takeovers under way are done, a device has at most one active registered connection. */
  lemma OneSessionPerDevice(run: seq<Step>, b: ConnId, c: ConnId)
    requires Valid(EMPTY, run)
    requires var s := Final(EMPTY, run);
             && Registered(s, b) && Registered(s, c) && s.conns[b].device == s.conns[c].device
             && s.conns[b].active && s.conns[c].active
             && !BeingTakenOver(s, b) && !BeingTakenOver(s, c)
    ensures b == c
  {
    RunKeepsInv(EMPTY, run);
  }

  /** Some handler is still to remove every entry of the store. */
  ghost predicate Attended(s: Server) {
    forall d :: d in s.store ==> s.store[d] < |s.conns| && s.conns[s.store[d]].handler in {Serving, Leaving}
  }

  lemma AttendedStep(s: Server, st: Step)
    requires Named(s) && Attended(s) && Enabled(s, st)
    ensures Attended(Apply(s, st))
  {
    var s' := Apply(s, st);
    forall d | d in s'.store
      ensures s'.store[d] < |s'.conns| && s'.conns[s'.store[d]].handler in {Serving, Leaving}
    {
      EntryAttended(s, st, d);
    }
  }

  lemma EntryAttended(s: Server, st: Step, d: DeviceId)
    requires Named(s) && Attended(s) && Enabled(s, st) && d in Apply(s, st).store
    ensures var s' := Apply(s, st);
            s'.store[d] < |s'.conns| && s'.conns[s'.store[d]].handler in {Serving, Leaving}
  {
    if !st.Register? || d != s.conns[st.c].device {
      EntryKept(s, st, d);
      HandlerMoves(s, st, s.store[d]);
    }
  }

  lemma EntryKept(s: Server, st: Step, d: DeviceId)
    requires Named(s) && Enabled(s, st) && d in Apply(s, st).store && (st.Register? ==> d != s.conns[st.c].device)
    ensures d in s.store && Apply(s, st).store[d] == s.store[d] && s.conns[s.store[d]].device == d
    ensures st != Unregister(s.store[d])
  {
  }

  lemma HandlerMoves(s: Server, st: Step, c: ConnId)
    requires Enabled(s, st) && c < |s.conns|
    ensures c < |Apply(s, st).conns|
    ensures Apply(s, st).conns[c].handler ==
            if st == Register(c) then Serving else if st == Leave(c) then Leaving
            else if st == Unregister(c) then Gone else s.conns[c].handler
  {
  }

  lemma {:induction false} AttendedRun(s: Server, run: seq<Step>)
    requires Inv(s) && Attended(s) && Valid(s, run)
    ensures Attended(Final(s, run))
    decreases |run|
  {
    if run != [] {
      StepKeepsInv(s, run[0]);
      AttendedStep(s, run[0]);
      AttendedRun(Apply(s, run[0]), run[1..]);
    }
  }

  /** The store does not leak: an entry is a connection whose handler has yet to remove it, and without handlers it is empty. */
  lemma StoreDoesNotLeak(run: seq<Step>)
    requires Valid(EMPTY, run)
    ensures var s := Final(EMPTY, run);
            && (forall c: ConnId :: c < |s.conns| && s.conns[c].handler in {Accepted, Gone} ==> !InStore(s, c))
            && ((forall c: ConnId :: Registered(s, c) ==> s.conns[c].handler == Gone) ==> s.store == map[])
  {
    RunKeepsInv(EMPTY, run);
    AttendedRun(EMPTY, run);
    var s := Final(EMPTY, run);
    assert forall d :: d in s.store ==> Registered(s, s.store[d]) && s.conns[s.store[d]].handler != Gone;
    if forall c: ConnId :: Registered(s, c) ==> s.conns[c].handler == Gone {
      assert s.store.Keys == {};
    }
  }

  // ---------- what kicks, timers and takeovers achieve ----------

  /** How far a closer has brought its connection. */
  predicate Progress(s: Server, i: nat)
    requires i < |s.closers| && s.closers[i].c < |s.conns|
  {
    var t, k := s.closers[i], s.conns[s.closers[i].c];
    && (t.told ==> i in k.byes)
    && (k.closedBy == Some(TheCloser(i)) ==> t.told)
    && (t.kind != Kicked ==> t.found && t.stage !in {CheckActive, RemoveConn})
    && match t.stage
       case CheckActive => t.found && !t.told
       case SendBye => t.found && !t.told
       case CloseConn => t.found && (t.told || !k.active)
       case RemoveConn => t.found && !k.active
       case Done => !k.active && (t.kind == Kicked && t.found ==> !InStore(s, t.c)) && (!t.found ==> !t.told)
  }

  ghost predicate AllProgress(s: Server) {
    forall i :: 0 <= i < |s.closers| ==> s.closers[i].c < |s.conns| && Registered(s, s.closers[i].c) && Progress(s, i)
  }

  /** A connection is active until someone has closed it, and only its own closers speak on it. */
  predicate ConnFits(s: Server, c: ConnId)
    requires c < |s.conns|
  {
    var k := s.conns[c];
    && (k.active <==> k.closedBy.None?)
    && (k.closedBy.Some? && k.closedBy.value.TheCloser? ==>
          k.closedBy.value.t < |s.closers| && s.closers[k.closedBy.value.t].c == c)
  }

  ghost predicate ConnsFit(s: Server) {
    forall c: ConnId :: c < |s.conns| ==> ConnFits(s, c)
  }

  /** A registered connection that is not in the store never comes back. */
  lemma StaysOut(s: Server, st: Step, c: ConnId)
    requires Enabled(s, st) && Registered(s, c) && !InStore(s, c)
    ensures Registered(Apply(s, st), c) && !InStore(Apply(s, st), c)
  {
    StepShape(s, st);
  }

  lemma ConnStep(s: Server, st: Step, c: ConnId)
    requires ConnsFit(s) && Enabled(s, st) && c < |Apply(s, st).conns|
    ensures ConnFits(Apply(s, st), c)
  {
    StepShape(s, st);
    if c < |s.conns| {
      assert ConnFits(s, c);
    }
  }

  /** A closer that others overtake keeps what it has achieved. */
  lemma OthersProgress(s: Server, st: Step, i: nat)
    requires AllProgress(s) && ConnsFit(s) && Enabled(s, st) && i < |s.closers| && st != Advance(i)
    ensures Apply(s, st).closers[i] == s.closers[i] && Registered(Apply(s, st), s.closers[i].c) && Progress(Apply(s, st), i)
  {
    var c := s.closers[i].c;
    assert Registered(s, c) && Progress(s, i);
    StepShape(s, st);
    OthersConn(s, st, i, c);
    if !InStore(s, c) {
      StaysOut(s, st, c);
    }
  }

  lemma OthersConn(s: Server, st: Step, i: nat, c: ConnId)
    requires Enabled(s, st) && i < |s.closers| && c < |s.conns| && st != Advance(i)
    ensures var s' := Apply(s, st);
            && |s.closers| <= |s'.closers| && s'.closers[i] == s.closers[i] && |s.conns| <= |s'.conns|
            && (i in s.conns[c].byes ==> i in s'.conns[c].byes)
            && (s'.conns[c].closedBy == Some(TheCloser(i)) ==> s.conns[c].closedBy == Some(TheCloser(i)))
  {
  }

  lemma OwnProgress(s: Server, i: nat)
    requires AllProgress(s) && ConnsFit(s) && Enabled(s, Advance(i))
    ensures Registered(Apply(s, Advance(i)), s.closers[i].c) && Progress(Apply(s, Advance(i)), i)
  {
    var c := s.closers[i].c;
    assert Registered(s, c) && Progress(s, i) && ConnFits(s, c);
  }

  lemma NewProgress(s: Server, st: Step)
    requires Named(s) && ConnsFit(s) && Enabled(s, st) && |Apply(s, st).closers| > |s.closers|
    ensures var s', i := Apply(s, st), |s.closers|;
            |s'.closers| == i + 1 && Registered(s', s'.closers[i].c) && Progress(s', i)
  {
    var s' := Apply(s, st);
    var c := s'.closers[|s.closers|].c;
    assert c < |s.conns| && ConnFits(s, c);
    StepShape(s, st);
  }

  lemma ProgressStep(s: Server, st: Step)
    requires Named(s) && AllProgress(s) && ConnsFit(s) && Enabled(s, st)
    ensures AllProgress(Apply(s, st)) && ConnsFit(Apply(s, st))
  {
    var s' := Apply(s, st);
    forall i | 0 <= i < |s'.closers|
      ensures s'.closers[i].c < |s'.conns| && Registered(s', s'.closers[i].c) && Progress(s', i)
    {
      if i >= |s.closers| {
        NewProgress(s, st);
      } else if st == Advance(i) {
        OwnProgress(s, i);
      } else {
        OthersProgress(s, st, i);
      }
    }
    forall c: ConnId | c < |s'.conns|
      ensures ConnFits(s', c)
    {
      ConnStep(s, st, c);
    }
  }

  lemma {:induction false} ProgressRun(s: Server, run: seq<Step>)
    requires Inv(s) && AllProgress(s) && ConnsFit(s) && Valid(s, run)
    ensures Inv(Final(s, run)) && AllProgress(Final(s, run)) && ConnsFit(Final(s, run))
    decreases |run|
  {
    if run != [] {
      StepKeepsInv(s, run[0]);
      ProgressStep(s, run[0]);
      ProgressRun(Apply(s, run[0]), run[1..]);
    }
  }

  /**
   What a closer that is done has achieved, in every later state too: its connection is
   closed, a kicked one is out of the store, and if the closer itself closed it then its
   DISCONNECT went out first. A kick that found the connection inactive has done nothing.
   */
  lemma CloserAchieves(run: seq<Step>, i: nat)
    requires Valid(EMPTY, run) && i < |Final(EMPTY, run).closers| && Final(EMPTY, run).closers[i].stage == Done
    ensures var s := Final(EMPTY, run);
            var t := s.closers[i];
            && t.c < |s.conns| && !s.conns[t.c].active
            && (t.kind == Kicked && t.found ==> !InStore(s, t.c))
            && (s.conns[t.c].closedBy == Some(TheCloser(i)) ==> t.told && i in s.conns[t.c].byes)
            && (!t.found ==> t.kind == Kicked && !t.told && s.conns[t.c].closedBy != Some(TheCloser(i)))
  {
    ProgressRun(EMPTY, run);
    assert Progress(Final(EMPTY, run), i);
  }

  /** A kick of a connection that is not active leaves everything as it is. */
  lemma KickOfInactive(s: Server, i: nat)
    requires Enabled(s, Advance(i)) && s.closers[i].stage == CheckActive && !s.conns[s.closers[i].c].active
    ensures Apply(s, Advance(i)) == s.(closers := s.closers[i := s.closers[i].(stage := Done, found := false)])
  {
  }

  lemma ClosedStep(s: Server, st: Step, c: ConnId)
    requires Enabled(s, st) && c < |s.conns| && !s.conns[c].active
    ensures var k := Apply(s, st).conns[c];
            !k.active && k.byes == s.conns[c].byes && k.closedBy == s.conns[c].closedBy
  {
  }

  /** Nothing is sent on a closed connection, and it stays closed by whoever closed it. */
  lemma {:induction false} ClosedForGood(s: Server, run: seq<Step>, c: ConnId)
    requires Valid(s, run) && c < |s.conns| && !s.conns[c].active
    ensures c < |Final(s, run).conns|
    ensures var k := Final(s, run).conns[c];
            !k.active && k.byes == s.conns[c].byes && k.closedBy == s.conns[c].closedBy
    decreases |run|
  {
    if run != [] {
      ClosedStep(s, run[0], c);
      StepShape(s, run[0]);
      ClosedForGood(Apply(s, run[0]), run[1..], c);
    }
  }

  // ---------- every closer comes to its end ----------

  function StepsLeft(stage: Stage): nat {
    match stage
    case CheckActive => 4
    case SendBye => 3
    case CloseConn => 2
    case RemoveConn => 1
    case Done => 0
  }

  function WorkLeft(closers: seq<Closer>): nat {
    if closers == [] then 0 else StepsLeft(closers[0].stage) + WorkLeft(closers[1..])
  }

  lemma {:induction false} WorkUpdate(closers: seq<Closer>, i: nat, t: Closer)
    requires i < |closers|
    ensures WorkLeft(closers[i := t]) == WorkLeft(closers) - StepsLeft(closers[i].stage) + StepsLeft(t.stage)
  {
    if i == 0 {
      assert closers[i := t][1..] == closers[1..];
    } else {
      assert closers[i := t][1..] == closers[1..][i - 1 := t];
      WorkUpdate(closers[1..], i - 1, t);
    }
  }

  lemma AdvanceWorks(s: Server, i: nat)
    requires Enabled(s, Advance(i))
    ensures WorkLeft(Apply(s, Advance(i)).closers) < WorkLeft(s.closers)
  {
    var s' := Apply(s, Advance(i));
    assert s'.closers == s.closers[i := s'.closers[i]];
    WorkUpdate(s.closers, i, s'.closers[i]);
  }

  predicate OnlyClosers(run: seq<Step>) {
    forall i :: 0 <= i < |run| ==> run[i].Advance?
  }

  lemma {:induction false} ClosersEnd(s: Server, run: seq<Step>)
    requires Valid(s, run) && OnlyClosers(run)
    ensures |run| + WorkLeft(Final(s, run).closers) <= WorkLeft(s.closers)
    decreases |run|
  {
    if run != [] {
      assert run[0].Advance?;
      AdvanceWorks(s, run[0].t);
      ClosersEnd(Apply(s, run[0]), run[1..]);
    }
  }

  /**
   Let the closers of any reachable state run on, in any order: they take at most so many
   steps, and when none can go on all are done. Then every connection that was kicked,
   reaped or superseded is closed.
   */
  lemma ClosersFinish(run: seq<Step>, rest: seq<Step>)
    requires Valid(EMPTY, run) && Valid(Final(EMPTY, run), rest) && OnlyClosers(rest)
    ensures |rest| <= WorkLeft(Final(EMPTY, run).closers)
    ensures var s := Final(Final(EMPTY, run), rest);
            (forall i: nat :: !Enabled(s, Advance(i))) ==>
              && (forall i :: 0 <= i < |s.closers| ==>
                    s.closers[i].stage == Done && s.closers[i].c < |s.conns| && !s.conns[s.closers[i].c].active)
              && (forall c: ConnId :: Registered(s, c) && !IsLatest(s, c) ==> !s.conns[c].active)
  {
    ProgressRun(EMPTY, run);
    ProgressRun(Final(EMPTY, run), rest);
    ClosersEnd(Final(EMPTY, run), rest);
    var s := Final(Final(EMPTY, run), rest);
    if forall i: nat :: !Enabled(s, Advance(i)) {
      AllDone(s);
    }
  }

  lemma AllDone(s: Server)
    requires Inv(s) && AllProgress(s) && forall i: nat :: !Enabled(s, Advance(i))
    ensures forall i :: 0 <= i < |s.closers| ==>
                          s.closers[i].stage == Done && s.closers[i].c < |s.conns| && !s.conns[s.closers[i].c].active
    ensures forall c: ConnId :: Registered(s, c) && !IsLatest(s, c) ==> !s.conns[c].active
  {
    forall i | 0 <= i < |s.closers|
      ensures s.closers[i].stage == Done && s.closers[i].c < |s.conns| && !s.conns[s.closers[i].c].active
    {
      assert Progress(s, i) && !Enabled(s, Advance(i));
    }
    forall c: ConnId | Registered(s, c) && !IsLatest(s, c)
      ensures !s.conns[c].active
    {
      assert !InStore(s, c);
      assert !BeingTakenOver(s, c);
    }
  }
}
