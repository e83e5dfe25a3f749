/**
 Every interleaving of any number of goroutines calling the status protocol of
 client/status.go.

 A goroutine is inside at most one call. The callback a granted call hands back
 is an obligation of the goroutine that got it, run at most once, as the callers
 in client/client.go do.
 */
module StatusRuns {
  import opened Wrappers
  import opened Status

  type Pid = nat

  datatype Proc =
    | Idle
    | Passive(other: Option<Channel>)                   // Disconnecting, behind another disconnect
    | DiscWait(prev: Status, attempt: Option<Channel>)  // Disconnecting, behind a connect attempt
    | DiscRelock                                        // Disconnecting, wait over, lock not yet retaken
    | LossWait(will: bool, attempt: Option<Channel>)    // ConnectionLost, behind a connect attempt
    | OwnsConnect                                       // holds a connCompletedFn
    | OwnsDisconnect                                    // holds a disconnectCompletedFn
    | OwnsLoss(requested: bool)                         // holds a connectionLostHandledFn

  datatype System = System(c: Shared, procs: seq<Proc>)

  datatype Step =
    | CallConnect(p: Pid)
    | CallDisconnect(p: Pid)
    | CallLoss(p: Pid, will: bool)
    | WakePassive(p: Pid)
    | WakeDisconnect(p: Pid)
    | RelockDisconnect(p: Pid)
    | WakeLoss(p: Pid)
    | RunConnected(p: Pid, success: bool)
    | RunDisconnected(p: Pid)
    | RunLossHandled(p: Pid, proceed: bool)

  predicate IsRequest(st: Step) {
    st.CallConnect? || st.CallDisconnect? || st.CallLoss?
  }

  predicate ChannelClosed(c: Shared, ch: Option<Channel>) {
    ch.Some? && ch.value in c.closed
  }

  predicate Enabled(s: System, st: Step) {
    st.p < |s.procs| &&
    var q := s.procs[st.p];
    match st
    case CallConnect(_) => q.Idle?
    case CallDisconnect(_) => q.Idle?
    case CallLoss(_, _) => q.Idle?
    case WakePassive(_) => q.Passive? && ChannelClosed(s.c, q.other)
    case WakeDisconnect(_) => q.DiscWait? && ChannelClosed(s.c, q.attempt)
    case RelockDisconnect(_) => q.DiscRelock?
    case WakeLoss(_) => q.LossWait? && ChannelClosed(s.c, q.attempt)
    case RunConnected(_, _) => q.OwnsConnect?
    case RunDisconnected(_) => q.OwnsDisconnect?
    case RunLossHandled(_, _) => q.OwnsLoss?
  }

  /** The shared fields after one step, and what its goroutine is doing then. */
  function Effect(c: Shared, q: Proc, st: Step): (Shared, Proc) {
    match st
    case CallConnect(_) =>
      var (c', r) := BeginConnect(c);
      (c', if r.ConnectGranted? then OwnsConnect else Idle)
    case CallDisconnect(_) =>
      var (c', r) := BeginDisconnect(c);
      (c', match r
           case DisconnectGranted => OwnsDisconnect
           case AlreadyDisconnected => Idle
           case WaitForOther(ch) => Passive(ch)
           case WaitForConnect(prev, ch) => DiscWait(prev, ch))
    case CallLoss(_, will) =>
      var (c', r) := BeginLoss(c, will);
      (c', match r
           case LossGranted => OwnsLoss(will)
           case LossWaitForConnect(ch) => LossWait(will, ch)
           case _ => Idle)
    case WakePassive(_) => (c, Idle)
    case WakeDisconnect(_) =>
      // willReconnect is read here without the lock
      (c, if q.DiscWait? && q.prev == Reconnecting && !c.willReconnect then Idle else DiscRelock)
    case RelockDisconnect(_) => (MakeAction(c), OwnsDisconnect)
    case WakeLoss(_) =>
      var will := q.LossWait? && q.will;
      var (c', r) := ResumeLoss(c, will);
      (c', if r.LossGranted? then OwnsLoss(will) else Idle)
    case RunConnected(_, success) => (EndConnect(c, success).0, Idle)
    case RunDisconnected(_) => (EndDisconnect(c), Idle)
    case RunLossHandled(_, proceed) =>
      var (c', r) := HandleLoss(c, q.OwnsLoss? && q.requested, proceed);
      (c', if r.MayReconnect? then OwnsConnect else Idle)
  }

  function Apply(s: System, st: Step): System
    requires Enabled(s, st)
  {
    var (c, q) := Effect(s.c, s.procs[st.p], st);
    System(c, s.procs[st.p := q])
  }

  function Initial(goroutines: nat): System {
    System(FRESH, seq(goroutines, _ => Idle))
  }

  predicate Valid(s: System, run: seq<Step>)
    decreases |run|
  {
    run == [] || (Enabled(s, run[0]) && Valid(Apply(s, run[0]), run[1..]))
  }

  function Final(s: System, run: seq<Step>): System
    requires Valid(s, run)
    decreases |run|
  {
    if run == [] then s else Final(Apply(s, run[0]), run[1..])
  }

  // ---------- the invariant ----------

  predicate Owns(q: Proc) {
    q.OwnsConnect? || q.OwnsDisconnect? || q.OwnsLoss?
  }

  /** An heir goes on with its own disconnect once a connect attempt has ended. */
  predicate IsHeir(q: Proc) {
    q.DiscWait? || q.DiscRelock? || q.LossWait?
  }

  /** The one goroutine, if any, that satisfies `f`. */
  ghost predicate Only(s: System, f: Proc -> bool, who: Option<Pid>) {
    && (who.Some? ==> who.value < |s.procs|)
    && forall p :: 0 <= p < |s.procs| ==> (f(s.procs[p]) <==> who == Some(p))
  }

  function Role(s: System, who: Option<Pid>): Proc
    requires who.Some? ==> who.value < |s.procs|
  {
    if who.Some? then s.procs[who.value] else Idle
  }

  /** The attempt an heir waits for is running, or it has ended and nobody owes anything. */
  predicate AttemptOf(c: Shared, owner: Proc, ch: Option<Channel>) {
    ch.Some? &&
    if ch.value in c.closed then owner.Idle? else owner.OwnsConnect? && c.action == ch
  }

  predicate Coherent(c: Shared, owner: Proc, heir: Proc) {
    && !c.panicked
    && (forall ch | ch in c.closed :: ch < c.made)
    && (c.action.Some? ==> c.action.value < c.made && c.action.value !in c.closed)
    && (c.action.Some? <==> Owns(owner))
    && (owner.Idle? || Owns(owner))
    && match c.status
       case Disconnected => owner.Idle? && heir.Idle?
       case Connected => owner.Idle? && heir.Idle?
       case Connecting => owner.OwnsConnect? && heir.Idle?
       case Reconnecting => owner.OwnsConnect? && heir.Idle? && c.willReconnect
       case Disconnecting =>
         match heir
         case DiscWait(prev, ch) => prev in {Connecting, Reconnecting} && AttemptOf(c, owner, ch)
         case LossWait(_, ch) => AttemptOf(c, owner, ch)
         case DiscRelock => owner.Idle?
         case _ => heir.Idle? && !owner.OwnsConnect?
  }

  ghost predicate PassivesCovered(s: System) {
    forall p :: 0 <= p < |s.procs| && s.procs[p].Passive? && s.procs[p].other.Some? ==>
                  ChannelClosed(s.c, s.procs[p].other) || s.c.action == s.procs[p].other
  }

  ghost predicate InvFor(s: System, owner: Option<Pid>, heir: Option<Pid>) {
    && Only(s, Owns, owner)
    && Only(s, IsHeir, heir)
    && Coherent(s.c, Role(s, owner), Role(s, heir))
    && PassivesCovered(s)
  }

  ghost predicate Inv(s: System) {
    exists owner: Option<Pid>, heir: Option<Pid> :: InvFor(s, owner, heir)
  }

  function After(f: Proc -> bool, who: Option<Pid>, p: Pid, q: Proc): Option<Pid> {
    if f(q) then Some(p) else if who == Some(p) then None else who
  }

  lemma OnlyAfter(s: System, f: Proc -> bool, who: Option<Pid>, st: Step)
    requires Enabled(s, st) && Only(s, f, who)
    requires f(Apply(s, st).procs[st.p]) ==> who.None? || who == Some(st.p)
    ensures Only(Apply(s, st), f, After(f, who, st.p, Apply(s, st).procs[st.p]))
  {
  }

  /** The invariant on the two roles alone; the stepping goroutine may be one of them or neither. */
  lemma CoherentStep(c: Shared, q: Proc, owner: Proc, heir: Proc, st: Step)
    requires Coherent(c, owner, heir)
    requires Owns(q) ==> owner == q
    requires IsHeir(q) ==> heir == q
    requires Enabled(System(c, [q]), st.(p := 0))
    ensures var (c', q') := Effect(c, q, st);
            && (Owns(q') && !Owns(q) ==> owner.Idle?)
            && (IsHeir(q') && !IsHeir(q) ==> heir.Idle?)
            && Coherent(c', if Owns(q') then q' else if Owns(q) then Idle else owner,
                        if IsHeir(q') then q' else if IsHeir(q) then Idle else heir)
  {
  }

  lemma PassivesStep(s: System, owner: Option<Pid>, heir: Option<Pid>, st: Step)
    requires InvFor(s, owner, heir) && Enabled(s, st)
    ensures PassivesCovered(Apply(s, st))
  {
    var s' := Apply(s, st);
    forall p | 0 <= p < |s'.procs| && s'.procs[p].Passive? && s'.procs[p].other.Some?
      ensures ChannelClosed(s'.c, s'.procs[p].other) || s'.c.action == s'.procs[p].other
    {
      if p != st.p {
        assert s'.procs[p] == s.procs[p];
      }
    }
  }

  lemma StepKeepsInvFor(s: System, owner: Option<Pid>, heir: Option<Pid>, st: Step)
    requires InvFor(s, owner, heir) && Enabled(s, st)
    ensures var q := Apply(s, st).procs[st.p];
            && InvFor(Apply(s, st), After(Owns, owner, st.p, q), After(IsHeir, heir, st.p, q))
            && (Owns(q) && owner.Some? ==> owner == Some(st.p))
  {
    CoherentStep(s.c, s.procs[st.p], Role(s, owner), Role(s, heir), st);
    OnlyAfter(s, Owns, owner, st);
    OnlyAfter(s, IsHeir, heir, st);
    PassivesStep(s, owner, heir, st);
  }

  /** Every step of every goroutine keeps the invariant. */
  lemma StepKeepsInv(s: System, st: Step)
    requires Inv(s) && Enabled(s, st)
    ensures Inv(Apply(s, st))
  {
    var owner: Option<Pid>, heir: Option<Pid> :| InvFor(s, owner, heir);
    StepKeepsInvFor(s, owner, heir, st);
  }

  lemma {:induction false} RunKeepsInv(s: System, run: seq<Step>)
    requires Inv(s) && Valid(s, run)
    ensures Inv(Final(s, run))
    decreases |run|
  {
    if run != [] {
      StepKeepsInv(s, run[0]);
      RunKeepsInv(Apply(s, run[0]), run[1..]);
    }
  }

  lemma InitialInv(goroutines: nat)
    ensures Inv(Initial(goroutines))
  {
    assert InvFor(Initial(goroutines), None, None);
  }

  ghost predicate Reachable(s: System) {
    exists goroutines: nat, run ::
      Valid(Initial(goroutines), run) && Final(Initial(goroutines), run) == s
  }

  lemma ReachableInv(s: System)
    requires Reachable(s)
    ensures Inv(s)
  {
    var goroutines: nat, run :|
      Valid(Initial(goroutines), run) && Final(Initial(goroutines), run) == s;
    InitialInv(goroutines);
    RunKeepsInv(Initial(goroutines), run);
  }

  /**
   In every reachable state there is one outstanding callback exactly when
   `actionCompleted` is not nil, at most one heir, and the heir's channel is never
   nil. No `close` was ever applied to a nil or a closed channel.
   */
  lemma ObligationsExact(s: System)
    requires Reachable(s)
    ensures !s.c.panicked
    ensures s.c.action.Some? <==> exists p :: 0 <= p < |s.procs| && Owns(s.procs[p])
    ensures forall p, q :: 0 <= p < |s.procs| && 0 <= q < |s.procs| && Owns(s.procs[p]) && Owns(s.procs[q]) ==> p == q
    ensures forall p, q :: 0 <= p < |s.procs| && 0 <= q < |s.procs| && IsHeir(s.procs[p]) && IsHeir(s.procs[q]) ==> p == q
    ensures forall p :: 0 <= p < |s.procs| && s.procs[p].DiscWait? ==> s.procs[p].attempt.Some?
    ensures forall p :: 0 <= p < |s.procs| && s.procs[p].LossWait? ==> s.procs[p].attempt.Some?
    ensures forall p :: 0 <= p < |s.procs| && IsHeir(s.procs[p]) ==> s.c.status == Disconnecting
  {
    ReachableInv(s);
    var owner: Option<Pid>, heir: Option<Pid> :| InvFor(s, owner, heir);
  }

  // ---------- a disconnect request wins ----------

  /** Whatever still runs, it can no longer bring the connection back. */
  ghost predicate Surrendered(s: System) {
    || s.c.status == Disconnected
    || (&& s.c.status == Disconnecting
        && forall p :: 0 <= p < |s.procs| && (s.procs[p].OwnsLoss? || s.procs[p].LossWait?)
                       ==> !s.c.willReconnect)
  }

  predicate AcceptedConnect(s: System, st: Step) {
    st.CallConnect? && s.c.status == Disconnected
  }

  predicate NoAcceptedConnect(s: System, run: seq<Step>)
    requires Valid(s, run)
    decreases |run|
  {
    run == [] || (!AcceptedConnect(s, run[0]) && NoAcceptedConnect(Apply(s, run[0]), run[1..]))
  }

  lemma DisconnectSurrenders(s: System, p: Pid)
    requires Inv(s) && Enabled(s, CallDisconnect(p))
    ensures Surrendered(Apply(s, CallDisconnect(p)))
  {
    var owner: Option<Pid>, heir: Option<Pid> :| InvFor(s, owner, heir);
    var s' := Apply(s, CallDisconnect(p));
    forall i | 0 <= i < |s'.procs| && (s'.procs[i].OwnsLoss? || s'.procs[i].LossWait?)
      ensures s'.c.status == Disconnected || !s'.c.willReconnect
    {
      assert s'.procs[i] == s.procs[i];
      assert Owns(s.procs[i]) || IsHeir(s.procs[i]);
    }
  }

  lemma SurrenderLasts(s: System, st: Step)
    requires Inv(s) && Surrendered(s) && Enabled(s, st) && !AcceptedConnect(s, st)
    ensures Surrendered(Apply(s, st))
  {
    var owner: Option<Pid>, heir: Option<Pid> :| InvFor(s, owner, heir);
    var s' := Apply(s, st);
    if s'.c.status == Disconnecting {
      assert s.c.status == Disconnecting;
      forall i | 0 <= i < |s'.procs| && (s'.procs[i].OwnsLoss? || s'.procs[i].LossWait?)
        ensures !s'.c.willReconnect
      {
        if i != st.p {
          assert s'.procs[i] == s.procs[i];
        }
      }
    }
  }

  lemma {:induction false} SurrenderedRun(s: System, run: seq<Step>)
    requires Inv(s) && Surrendered(s) && Valid(s, run) && NoAcceptedConnect(s, run)
    ensures Surrendered(Final(s, run))
    decreases |run|
  {
    if run != [] {
      StepKeepsInv(s, run[0]);
      SurrenderLasts(s, run[0]);
      SurrenderedRun(Apply(s, run[0]), run[1..]);
    }
  }

  /**
   Once a `Disconnecting` call has been made, no later state is connected,
   connecting or reconnecting until a `Connecting` call is accepted again, whatever
   loss handler or connect attempt was in flight.
   */
  lemma DisconnectWins(s: System, p: Pid, later: seq<Step>)
    requires Reachable(s) && Enabled(s, CallDisconnect(p))
    requires Valid(Apply(s, CallDisconnect(p)), later)
    requires NoAcceptedConnect(Apply(s, CallDisconnect(p)), later)
    ensures Final(Apply(s, CallDisconnect(p)), later).c.status in {Disconnecting, Disconnected}
  {
    ReachableInv(s);
    StepKeepsInv(s, CallDisconnect(p));
    DisconnectSurrenders(s, p);
    SurrenderedRun(Apply(s, CallDisconnect(p)), later);
  }

  // ---------- and only a disconnect request does ----------

  /** A goroutine that handles a loss, or waits to, and will reconnect after it. */
  predicate WillReconnect(s: System, p: Pid) {
    && p < |s.procs| && s.c.status == Disconnecting && s.c.willReconnect
    && (s.procs[p] == OwnsLoss(true) || (s.procs[p].LossWait? && s.procs[p].will))
  }

  /** No disconnect request, and of the goroutine itself nothing but the end of its wait. */
  predicate Uninterrupted(run: seq<Step>, p: Pid) {
    forall i :: 0 <= i < |run| ==> !run[i].CallDisconnect? && (run[i].p == p ==> run[i].WakeLoss?)
  }

  lemma LossPersistsStep(s: System, p: Pid, st: Step)
    requires Inv(s) && WillReconnect(s, p) && Enabled(s, st)
    requires !st.CallDisconnect? && (st.p == p ==> st.WakeLoss?)
    ensures WillReconnect(Apply(s, st), p)
  {
    var owner: Option<Pid>, heir: Option<Pid> :| InvFor(s, owner, heir);
    assert Owns(s.procs[st.p]) <==> owner == Some(st.p);
    assert IsHeir(s.procs[st.p]) <==> heir == Some(st.p);
    assert Owns(s.procs[p]) || IsHeir(s.procs[p]);
  }

  lemma {:induction false} LossPersists(s: System, p: Pid, run: seq<Step>)
    requires Inv(s) && WillReconnect(s, p) && Valid(s, run) && Uninterrupted(run, p)
    ensures WillReconnect(Final(s, run), p) && Inv(Final(s, run))
    decreases |run|
  {
    if run != [] {
      assert !run[0].CallDisconnect? && (run[0].p == p ==> run[0].WakeLoss?);
      LossPersistsStep(s, p, run[0]);
      StepKeepsInv(s, run[0]);
      LossPersists(Apply(s, run[0]), p, run[1..]);
    }
  }

  /** The wait of a loss is over as soon as nobody owes the end of the attempt. */
  lemma LossWakes(s: System, p: Pid)
    requires Inv(s) && p < |s.procs| && s.procs[p].LossWait?
    ensures Enabled(s, WakeLoss(p)) <==> s.c.action.None?
  {
    var owner: Option<Pid>, heir: Option<Pid> :| InvFor(s, owner, heir);
    assert heir == Some(p);
  }

  /**
   A loss that asked for a reconnect gets it, whether it was found while connected or
   during an attempt: after any steps among which no `Disconnecting` call was made, its
   goroutine holds the handler, which puts the client in `reconnecting`, or still waits
   for the attempt to end, after which it will get the handler.
   */
  lemma LossReconnects(s: System, p: Pid, later: seq<Step>)
    requires Reachable(s) && Enabled(s, CallLoss(p, true)) && s.c.status in {Connected, Connecting, Reconnecting}
    requires Valid(Apply(s, CallLoss(p, true)), later) && Uninterrupted(later, p)
    ensures var s' := Final(Apply(s, CallLoss(p, true)), later);
            if Enabled(s', RunLossHandled(p, true)) then
              && Apply(s', RunLossHandled(p, true)).c.status == Reconnecting
              && Apply(s', RunLossHandled(p, true)).procs[p] == OwnsConnect
            else if s'.c.action.None? then
              Enabled(s', WakeLoss(p)) && Apply(s', WakeLoss(p)).procs[p] == OwnsLoss(true)
            else
              p < |s'.procs| && s'.procs[p].LossWait? && s'.c.status == Disconnecting && s'.c.willReconnect
  {
    ReachableInv(s);
    StepKeepsInv(s, CallLoss(p, true));
    LossPersists(Apply(s, CallLoss(p, true)), p, later);
    var s' := Final(Apply(s, CallLoss(p, true)), later);
    if s'.procs[p].LossWait? {
      LossWakes(s', p);
    }
  }
}
