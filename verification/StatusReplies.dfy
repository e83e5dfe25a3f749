/**
 What the answers of client/status.go mean to its callers: each answer follows from the
 calls made so far and the answers they got, without a look at the status itself.
 */
module StatusReplies {
  import opened Wrappers
  import opened Status
  import opened StatusRuns

  /** What a caller is told; `Nothing` while it goes on waiting. */
  datatype Reply =
    | Granted
    | AlreadyUp      // errAlreadyConnectedOrReconnecting
    | NotDown        // errStatusMustBeDisconnected
    | AlreadyDown    // errAlreadyDisconnected
    | InProgress     // errDisconnectionInProgress
    | Waits
    | Nothing
    | Completed
    | Aborted        // errAbortConnection
    | Requested      // errDisconnectionRequested
    | Reconnects

  function ReplyOf(s: System, st: Step): Reply
    requires Enabled(s, st)
  {
    var q := s.procs[st.p];
    match st
    case CallConnect(_) =>
      (match BeginConnect(s.c).1
       case ConnectGranted => Granted
       case AlreadyConnectedOrReconnecting => AlreadyUp
       case MustBeDisconnected => NotDown)
    case CallDisconnect(_) =>
      (match BeginDisconnect(s.c).1
       case DisconnectGranted => Granted
       case AlreadyDisconnected => AlreadyDown
       case _ => Waits)
    case CallLoss(_, will) =>
      (match BeginLoss(s.c, will).1
       case LossGranted => Granted
       case LossAlreadyDisconnected => AlreadyDown
       case LossWhileDisconnecting => InProgress
       case LossWaitForConnect(_) => Waits)
    case WakePassive(_) => AlreadyDown
    case WakeDisconnect(_) => if Effect(s.c, q, st).1.Idle? then AlreadyDown else Nothing
    case RelockDisconnect(_) => Granted
    case WakeLoss(_) => if ResumeLoss(s.c, q.will).1.LossGranted? then Granted else AlreadyDown
    case RunConnected(_, success) => if EndConnect(s.c, success).1 then Aborted else Completed
    case RunDisconnected(_) => Completed
    case RunLossHandled(_, proceed) =>
      (match HandleLoss(s.c, q.requested, proceed).1
       case HandledDone => Completed
       case DisconnectionRequested => Requested
       case MayReconnect => Reconnects)
  }

  // ---------- the answers follow from one another ----------

  /** What the callers know of the client, from their calls and the answers alone. */
  datatype Known = Down | Starting | Up | Ending | Retrying

  function Learn(k: Known, st: Step, r: Reply): Known {
    if st.CallConnect? && r == Granted then Starting
    else if st.RunConnected? && r == Completed then if st.success then Up else Down
    else if (st.CallDisconnect? || st.CallLoss?) && r in {Granted, Waits} then Ending
    else if st.RunDisconnected? then Down
    else if st.RunLossHandled? then if r == Reconnects then Retrying else Down
    else k
  }

  function KnownAfter(s: System, k: Known, run: seq<Step>): Known
    requires Valid(s, run)
    decreases |run|
  {
    if run == [] then k else KnownAfter(Apply(s, run[0]), Learn(k, run[0], ReplyOf(s, run[0])), run[1..])
  }

  predicate Agrees(k: Known, status: Status) {
    match k
    case Down => status == Disconnected
    case Starting => status == Connecting
    case Up => status == Connected
    case Ending => status == Disconnecting
    case Retrying => status == Reconnecting
  }

  lemma LearnStep(s: System, k: Known, st: Step)
    requires Inv(s) && Agrees(k, s.c.status) && Enabled(s, st)
    ensures Agrees(Learn(k, st, ReplyOf(s, st)), Apply(s, st).c.status)
  {
    var owner: Option<Pid>, heir: Option<Pid> :| InvFor(s, owner, heir);
    assert Owns(s.procs[st.p]) <==> owner == Some(st.p);
    assert IsHeir(s.procs[st.p]) <==> heir == Some(st.p);
  }

  lemma {:induction false} LearnRun(s: System, k: Known, run: seq<Step>)
    requires Inv(s) && Agrees(k, s.c.status) && Valid(s, run)
    ensures Inv(Final(s, run)) && Agrees(KnownAfter(s, k, run), Final(s, run).c.status)
    decreases |run|
  {
    if run != [] {
      LearnStep(s, k, run[0]);
      StepKeepsInv(s, run[0]);
      LearnRun(Apply(s, run[0]), Learn(k, run[0], ReplyOf(s, run[0])), run[1..]);
    }
  }

  /**
   After any run, the answer to the next call is settled by what the earlier answers tell:
   a connect is granted when the client is down, told "already connected" exactly when the
   last attempt succeeded or a reconnect is under way, and refused otherwise; and so on for
   every call that can be refused.
   */
  lemma RepliesFollow(goroutines: nat, run: seq<Step>, st: Step)
    requires Valid(Initial(goroutines), run) && Enabled(Final(Initial(goroutines), run), st)
    ensures var k := KnownAfter(Initial(goroutines), Down, run);
            var r := ReplyOf(Final(Initial(goroutines), run), st);
            && (st.CallConnect? ==> r == if k == Down then Granted else if k in {Up, Retrying} then AlreadyUp else NotDown)
            && (st.CallDisconnect? ==> r == if k == Down then AlreadyDown else if k == Up then Granted else Waits)
            && (st.CallLoss? ==>
                  r == if k == Down then AlreadyDown else if k == Ending then InProgress else if k == Up then Granted else Waits)
            && (st.RunConnected? ==> r == if k == Ending then Aborted else Completed)
  {
    InitialInv(goroutines);
    LearnRun(Initial(goroutines), Down, run);
    ReplyTold(Final(Initial(goroutines), run), KnownAfter(Initial(goroutines), Down, run), st);
  }

  lemma ReplyTold(s: System, k: Known, st: Step)
    requires Agrees(k, s.c.status) && Enabled(s, st)
    ensures st.CallConnect? ==>
              ReplyOf(s, st) == if k == Down then Granted else if k in {Up, Retrying} then AlreadyUp else NotDown
    ensures st.CallDisconnect? ==>
              ReplyOf(s, st) == if k == Down then AlreadyDown else if k == Up then Granted else Waits
    ensures st.CallLoss? ==>
              ReplyOf(s, st) ==
              if k == Down then AlreadyDown else if k == Ending then InProgress else if k == Up then Granted else Waits
    ensures st.RunConnected? ==> ReplyOf(s, st) == if k == Ending then Aborted else Completed
  {
  }

  /** Whether a reconnect is wanted, from the calls and answers alone: the last loss decides, until a disconnect is asked for during it. */
  function LearnIntent(k: Known, wanted: bool, st: Step, r: Reply): bool {
    if st.CallLoss? && r in {Granted, Waits} then st.will
    else if st.CallDisconnect? && k == Ending then false
    else wanted
  }

  function IntentAfter(s: System, k: Known, wanted: bool, run: seq<Step>): bool
    requires Valid(s, run)
    decreases |run|
  {
    if run == [] then wanted
    else
      var r := ReplyOf(s, run[0]);
      IntentAfter(Apply(s, run[0]), Learn(k, run[0], r), LearnIntent(k, wanted, run[0], r), run[1..])
  }

  lemma IntentStep(s: System, k: Known, st: Step)
    requires Agrees(k, s.c.status) && Enabled(s, st)
    ensures Apply(s, st).c.willReconnect == LearnIntent(k, s.c.willReconnect, st, ReplyOf(s, st))
  {
  }

  lemma {:induction false} IntentRun(s: System, k: Known, run: seq<Step>)
    requires Inv(s) && Agrees(k, s.c.status) && Valid(s, run)
    ensures Final(s, run).c.willReconnect == IntentAfter(s, k, s.c.willReconnect, run)
    decreases |run|
  {
    if run != [] {
      IntentStep(s, k, run[0]);
      LearnStep(s, k, run[0]);
      StepKeepsInv(s, run[0]);
      IntentRun(Apply(s, run[0]), Learn(k, run[0], ReplyOf(s, run[0])), run[1..]);
    }
  }

  /** The status and the reconnect intent that the client reports are what its callers know. */
  lemma ReportsFollow(goroutines: nat, run: seq<Step>)
    requires Valid(Initial(goroutines), run)
    ensures Agrees(KnownAfter(Initial(goroutines), Down, run), Final(Initial(goroutines), run).c.status)
    ensures Final(Initial(goroutines), run).c.willReconnect == IntentAfter(Initial(goroutines), Down, false, run)
  {
    InitialInv(goroutines);
    LearnRun(Initial(goroutines), Down, run);
    IntentRun(Initial(goroutines), Down, run);
  }

  // ---------- what an aborted attempt has met ----------

  predicate Interferes(st: Step) {
    st.CallDisconnect? || st.CallLoss?
  }

  predicate Interfered(run: seq<Step>) {
    exists i :: 0 <= i < |run| && Interferes(run[i])
  }

  predicate LeftAlone(run: seq<Step>, p: Pid) {
    forall i :: 0 <= i < |run| ==> run[i].p != p
  }

  /** An attempt under way, and whether anyone has interfered with it. */
  predicate Attempt(s: System, p: Pid, interfered: bool) {
    && p < |s.procs| && s.procs[p].OwnsConnect?
    && if interfered then s.c.status == Disconnecting else s.c.status in {Connecting, Reconnecting}
  }

  lemma AttemptStep(s: System, p: Pid, interfered: bool, st: Step)
    requires Inv(s) && Attempt(s, p, interfered) && Enabled(s, st) && st.p != p
    ensures Attempt(Apply(s, st), p, interfered || Interferes(st))
  {
    var owner: Option<Pid>, heir: Option<Pid> :| InvFor(s, owner, heir);
    assert Owns(s.procs[st.p]) <==> owner == Some(st.p);
    assert IsHeir(s.procs[st.p]) <==> heir == Some(st.p);
    assert Owns(s.procs[p]);
  }

  lemma {:induction false} AttemptRun(s: System, p: Pid, interfered: bool, run: seq<Step>)
    requires Inv(s) && Attempt(s, p, interfered) && Valid(s, run) && LeftAlone(run, p)
    ensures Attempt(Final(s, run), p, interfered || Interfered(run))
    decreases |run|
  {
    if run != [] {
      var st, rest := run[0], run[1..];
      assert st.p != p;
      AttemptStep(s, p, interfered, st);
      StepKeepsInv(s, st);
      AttemptRun(Apply(s, st), p, interfered || Interferes(st), rest);
      InterferedSplit(run);
    }
  }

  lemma InterferedSplit(run: seq<Step>)
    requires run != []
    ensures Interfered(run) <==> Interferes(run[0]) || Interfered(run[1..])
  {
    if i :| 0 <= i < |run| && Interferes(run[i]) {
      if i > 0 {
        assert Interferes(run[1..][i - 1]);
      }
    }
    if i :| 0 <= i < |run[1..]| && Interferes(run[1..][i]) {
      assert Interferes(run[i + 1]);
    }
  }

  /** Attempts begin with a granted connect, or with a loss handled by a reconnect. */
  lemma AttemptBegins(s: System, st: Step)
    requires Enabled(s, st) && ((st.CallConnect? && ReplyOf(s, st) == Granted) || ReplyOf(s, st) == Reconnects)
    ensures Attempt(Apply(s, st), st.p, false)
  {
  }

  /**
   An attempt is told at its end that it was aborted if and only if someone called for a
   disconnect or reported a loss while it ran. Otherwise its own success decides.
   */
  lemma AbortedExactly(s: System, st: Step, later: seq<Step>, success: bool)
    requires Reachable(s) && Enabled(s, st)
    requires (st.CallConnect? && ReplyOf(s, st) == Granted) || ReplyOf(s, st) == Reconnects
    requires Valid(Apply(s, st), later) && LeftAlone(later, st.p)
    ensures var s', end := Final(Apply(s, st), later), RunConnected(st.p, success);
            && Enabled(s', end)
            && (ReplyOf(s', end) == Aborted <==> Interfered(later))
            && Apply(s', end).c.status ==
               if Interfered(later) then Disconnecting else if success then Connected else Disconnected
  {
    ReachableInv(s);
    StepKeepsInv(s, st);
    AttemptBegins(s, st);
    AttemptRun(Apply(s, st), st.p, false, later);
    AttemptEnds(Final(Apply(s, st), later), st.p, Interfered(later), success);
  }

  lemma AttemptEnds(s: System, p: Pid, interfered: bool, success: bool)
    requires Attempt(s, p, interfered)
    ensures Enabled(s, RunConnected(p, success))
    ensures ReplyOf(s, RunConnected(p, success)) == Aborted <==> interfered
    ensures Apply(s, RunConnected(p, success)).c.status ==
            if interfered then Disconnecting else if success then Connected else Disconnected
  {
  }

  // ---------- what a handled loss has met ----------

  predicate Asked(run: seq<Step>) {
    exists i :: 0 <= i < |run| && run[i].CallDisconnect?
  }

  predicate OnlyWakes(run: seq<Step>, p: Pid) {
    forall i :: 0 <= i < |run| && run[i].p == p ==> run[i].WakeLoss?
  }

  /** A loss in hand, and whether a disconnect has been asked for since; a loss that gave up is idle. */
  predicate InHand(s: System, p: Pid, will: bool, asked: bool) {
    && p < |s.procs|
    && (s.procs[p].Idle? ||
        (&& (s.procs[p] == OwnsLoss(will) || (s.procs[p].LossWait? && s.procs[p].will == will))
         && s.c.status == Disconnecting && (s.c.willReconnect <==> will && !asked)))
  }

  lemma InHandStep(s: System, p: Pid, will: bool, asked: bool, st: Step)
    requires Inv(s) && InHand(s, p, will, asked) && Enabled(s, st) && (st.p == p ==> st.WakeLoss?)
    ensures InHand(Apply(s, st), p, will, asked || st.CallDisconnect?)
  {
    var owner: Option<Pid>, heir: Option<Pid> :| InvFor(s, owner, heir);
    assert Owns(s.procs[st.p]) <==> owner == Some(st.p);
    assert IsHeir(s.procs[st.p]) <==> heir == Some(st.p);
    assert Owns(s.procs[p]) <==> owner == Some(p);
    assert IsHeir(s.procs[p]) <==> heir == Some(p);
  }

  lemma AskedSplit(run: seq<Step>)
    requires run != []
    ensures Asked(run) <==> run[0].CallDisconnect? || Asked(run[1..])
  {
    if i :| 0 <= i < |run| && run[i].CallDisconnect? {
      if i > 0 {
        assert run[1..][i - 1].CallDisconnect?;
      }
    }
    if i :| 0 <= i < |run[1..]| && run[1..][i].CallDisconnect? {
      assert run[i + 1].CallDisconnect?;
    }
  }

  lemma {:induction false} InHandRun(s: System, p: Pid, will: bool, asked: bool, run: seq<Step>)
    requires Inv(s) && InHand(s, p, will, asked) && Valid(s, run) && OnlyWakes(run, p)
    ensures InHand(Final(s, run), p, will, asked || Asked(run))
    decreases |run|
  {
    if run != [] {
      assert run[0].p == p ==> run[0].WakeLoss?;
      InHandStep(s, p, will, asked, run[0]);
      StepKeepsInv(s, run[0]);
      InHandRun(Apply(s, run[0]), p, will, asked || run[0].CallDisconnect?, run[1..]);
      AskedSplit(run);
    }
  }

  /**
   Whoever handles a loss is told that a disconnect was requested if and only if a reconnect
   had been asked for, the workers were live, and someone called for a disconnect since the
   loss; without such a call it reconnects, and in all other cases the loss simply ends.
   */
  lemma RequestedExactly(s: System, p: Pid, will: bool, later: seq<Step>, proceed: bool)
    requires Reachable(s) && Enabled(s, CallLoss(p, will)) && ReplyOf(s, CallLoss(p, will)) in {Granted, Waits}
    requires Valid(Apply(s, CallLoss(p, will)), later) && OnlyWakes(later, p)
    requires Enabled(Final(Apply(s, CallLoss(p, will)), later), RunLossHandled(p, proceed))
    ensures var s', handled := Final(Apply(s, CallLoss(p, will)), later), RunLossHandled(p, proceed);
            ReplyOf(s', handled) == if !will || !proceed then Completed else if Asked(later) then Requested else Reconnects
  {
    ReachableInv(s);
    StepKeepsInv(s, CallLoss(p, will));
    InHandRun(Apply(s, CallLoss(p, will)), p, will, false, later);
  }

  // ---------- what a waiting disconnect has met ----------

  /** A disconnect that waits for an attempt, and whether another has been asked for since. */
  predicate Waiting(s: System, p: Pid, retrying: bool, asked: bool) {
    && p < |s.procs| && s.procs[p].DiscWait? && (s.procs[p].prev == Reconnecting <==> retrying)
    && s.c.status == Disconnecting && (retrying ==> (s.c.willReconnect <==> !asked))
  }

  lemma WaitingStep(s: System, p: Pid, retrying: bool, asked: bool, st: Step)
    requires Inv(s) && Waiting(s, p, retrying, asked) && Enabled(s, st) && st.p != p
    ensures Waiting(Apply(s, st), p, retrying, asked || st.CallDisconnect?)
  {
    var owner: Option<Pid>, heir: Option<Pid> :| InvFor(s, owner, heir);
    assert Owns(s.procs[st.p]) <==> owner == Some(st.p);
    assert IsHeir(s.procs[st.p]) <==> heir == Some(st.p);
    assert IsHeir(s.procs[p]);
  }

  lemma {:induction false} WaitingRun(s: System, p: Pid, retrying: bool, asked: bool, run: seq<Step>)
    requires Inv(s) && Waiting(s, p, retrying, asked) && Valid(s, run) && LeftAlone(run, p)
    ensures Waiting(Final(s, run), p, retrying, asked || Asked(run))
    decreases |run|
  {
    if run != [] {
      assert run[0].p != p;
      WaitingStep(s, p, retrying, asked, run[0]);
      StepKeepsInv(s, run[0]);
      WaitingRun(Apply(s, run[0]), p, retrying, asked || run[0].CallDisconnect?, run[1..]);
      AskedSplit(run);
    }
  }

  /**
   A disconnect that found an attempt under way is told "already disconnected" when the
   attempt has ended if and only if that was a reconnect and someone else has called for a
   disconnect meanwhile; otherwise it goes on to disconnect the client itself.
   */
  lemma WaitedExactly(s: System, p: Pid, later: seq<Step>)
    requires Reachable(s) && Enabled(s, CallDisconnect(p)) && s.c.status in {Connecting, Reconnecting}
    requires Valid(Apply(s, CallDisconnect(p)), later) && LeftAlone(later, p)
    requires Enabled(Final(Apply(s, CallDisconnect(p)), later), WakeDisconnect(p))
    ensures ReplyOf(Final(Apply(s, CallDisconnect(p)), later), WakeDisconnect(p)) ==
            if s.c.status == Reconnecting && Asked(later) then AlreadyDown else Nothing
  {
    ReachableInv(s);
    StepKeepsInv(s, CallDisconnect(p));
    WaitingBegins(s, p);
    WaitingRun(Apply(s, CallDisconnect(p)), p, s.c.status == Reconnecting, false, later);
  }

  lemma WaitingBegins(s: System, p: Pid)
    requires Inv(s) && Enabled(s, CallDisconnect(p)) && s.c.status in {Connecting, Reconnecting}
    ensures Waiting(Apply(s, CallDisconnect(p)), p, s.c.status == Reconnecting, false)
  {
    var owner: Option<Pid>, heir: Option<Pid> :| InvFor(s, owner, heir);
  }
}
