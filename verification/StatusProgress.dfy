/**
 When does a disconnect end? Left to itself, with no new call, the protocol of
 client/status.go settles in connected or disconnected from exactly the states
 that are not doomed; a doomed state stays `disconnecting` in every run.
 */
module StatusProgress {
  import opened Wrappers
  import opened Status
  import opened StatusRuns

  predicate Settled(s: System) {
    s.c.status in {Connected, Disconnected}
  }

  /** An heir that will return an error after its wait and leave the status as it is. */
  predicate GivesUp(c: Shared, q: Proc) {
    || (q.DiscWait? && q.prev == Reconnecting && !c.willReconnect)
    || (q.LossWait? && !q.will)
  }

  /** Disconnecting, and no goroutine is left that would finish the job. */
  ghost predicate Doomed(s: System) {
    && s.c.status == Disconnecting
    && forall p :: 0 <= p < |s.procs| ==>
                     var q := s.procs[p];
                     !q.OwnsDisconnect? && !q.OwnsLoss? && (IsHeir(q) ==> GivesUp(s.c, q))
  }

  lemma DoomLasts(s: System, st: Step)
    requires Inv(s) && Doomed(s) && Enabled(s, st)
    ensures Doomed(Apply(s, st))
  {
    var owner: Option<Pid>, heir: Option<Pid> :| InvFor(s, owner, heir);
    var s' := Apply(s, st);
    forall p | 0 <= p < |s'.procs|
      ensures var q := s'.procs[p];
              !q.OwnsDisconnect? && !q.OwnsLoss? && (IsHeir(q) ==> GivesUp(s'.c, q))
    {
      if p != st.p {
        assert s'.procs[p] == s.procs[p];
      }
    }
  }

  /** A doomed client never leaves `disconnecting`, whatever anyone calls. */
  lemma {:induction false} DoomedForever(s: System, run: seq<Step>)
    requires Inv(s) && Doomed(s) && Valid(s, run)
    ensures Doomed(Final(s, run))
    decreases |run|
  {
    if run != [] {
      DoomLasts(s, run[0]);
      StepKeepsInv(s, run[0]);
      DoomedForever(Apply(s, run[0]), run[1..]);
    }
  }

  /**
   A step dooms the client exactly when it is a loss without reconnect that meets
   a connect attempt, or a second `Disconnecting` behind one that still waits for
   a reconnect attempt.
   */
  lemma DoomArisesExactly(s: System, st: Step)
    requires Inv(s) && Enabled(s, st) && !Doomed(s)
    ensures Doomed(Apply(s, st)) <==>
            || (st.CallLoss? && !st.will && s.c.status in {Connecting, Reconnecting})
            || (&& st.CallDisconnect? && s.c.status == Disconnecting
                && exists p :: 0 <= p < |s.procs| && s.procs[p].DiscWait? && s.procs[p].prev == Reconnecting)
  {
    var owner: Option<Pid>, heir: Option<Pid> :| InvFor(s, owner, heir);
    var s' := Apply(s, st);
    var alive: Pid := FinisherAfter(s, st, owner, heir);
    if st.CallLoss? && !st.will && s.c.status in {Connecting, Reconnecting} {
      forall p | 0 <= p < |s'.procs|
        ensures !s'.procs[p].OwnsDisconnect? && !s'.procs[p].OwnsLoss? && (IsHeir(s'.procs[p]) ==> GivesUp(s'.c, s'.procs[p]))
      {
        assert p == st.p || s'.procs[p] == s.procs[p];
      }
    } else if st.CallDisconnect? && s.c.status == Disconnecting && Role(s, heir).DiscWait? && Role(s, heir).prev == Reconnecting {
      forall p | 0 <= p < |s'.procs|
        ensures !s'.procs[p].OwnsDisconnect? && !s'.procs[p].OwnsLoss? && (IsHeir(s'.procs[p]) ==> GivesUp(s'.c, s'.procs[p]))
      {
        assert p == st.p || s'.procs[p] == s.procs[p];
      }
    } else if s'.c.status == Disconnecting {
      assert s'.procs[alive].OwnsDisconnect? || s'.procs[alive].OwnsLoss?
          || (IsHeir(s'.procs[alive]) && !GivesUp(s'.c, s'.procs[alive]));
    }
  }

  /** The goroutine that will still finish after a step that does not doom the client. */
  ghost function FinisherAfter(s: System, st: Step, owner: Option<Pid>, heir: Option<Pid>): Pid {
    if st.CallDisconnect? && s.c.status != Disconnecting then st.p
    else if st.CallLoss? && s.c.status != Disconnecting then st.p
    else if st.WakeDisconnect? || st.RelockDisconnect? || st.WakeLoss? then st.p
    else if heir.Some? then heir.value
    else if owner.Some? then owner.value
    else 0
  }

  // ---------- progress ----------

  function Weight(q: Proc): nat {
    match q
    case Idle => 0
    case Passive(_) => 1
    case OwnsConnect => 1
    case OwnsDisconnect => 1
    case OwnsLoss(_) => 2
    case DiscRelock => 2
    case DiscWait(_, _) => 3
    case LossWait(_, _) => 3
  }

  /** What all goroutines together still have to do. */
  function Rank(procs: seq<Proc>): nat {
    if procs == [] then 0 else Weight(procs[0]) + Rank(procs[1..])
  }

  lemma {:induction false} RankUpdate(procs: seq<Proc>, p: nat, q: Proc)
    requires p < |procs|
    ensures Rank(procs[p := q]) == Rank(procs) - Weight(procs[p]) + Weight(q)
  {
    if p == 0 {
      assert procs[0 := q][1..] == procs[1..];
    } else {
      assert procs[p := q][1..] == procs[1..][p - 1 := q];
      RankUpdate(procs[1..], p - 1, q);
    }
  }

  predicate NoRequests(run: seq<Step>) {
    forall i :: 0 <= i < |run| ==> !IsRequest(run[i])
  }

  lemma CompletionDecreases(s: System, st: Step)
    requires Enabled(s, st) && !IsRequest(st)
    ensures Rank(Apply(s, st).procs) < Rank(s.procs)
  {
    RankUpdate(s.procs, st.p, Effect(s.c, s.procs[st.p], st).1);
  }

  /** Without new calls every run is short: its length is bounded by the rank it starts from. */
  lemma {:induction false} CompletionsEnd(s: System, run: seq<Step>)
    requires Valid(s, run) && NoRequests(run)
    ensures |run| + Rank(Final(s, run).procs) <= Rank(s.procs)
    decreases |run|
  {
    if run != [] {
      CompletionDecreases(s, run[0]);
      CompletionsEnd(Apply(s, run[0]), run[1..]);
    }
  }

  ghost predicate Quiet(s: System) {
    forall st: Step :: Enabled(s, st) ==> IsRequest(st)
  }

  lemma OwnerMoves(s: System, owner: Option<Pid>, heir: Option<Pid>)
    requires InvFor(s, owner, heir) && s.c.action.Some?
    ensures !Quiet(s)
  {
    var p, q := owner.value, s.procs[owner.value];
    assert Enabled(s, if q.OwnsConnect? then RunConnected(p, true)
                      else if q.OwnsDisconnect? then RunDisconnected(p) else RunLossHandled(p, true));
  }

  lemma HeirMoves(s: System, p: Pid, owner: Option<Pid>, heir: Option<Pid>)
    requires InvFor(s, owner, heir) && p < |s.procs| && IsHeir(s.procs[p])
    ensures !Quiet(s)
  {
    var q := s.procs[p];
    if s.c.action.Some? {
      OwnerMoves(s, owner, heir);
    } else {
      assert Enabled(s, if q.DiscWait? then WakeDisconnect(p)
                        else if q.DiscRelock? then RelockDisconnect(p) else WakeLoss(p));
    }
  }

  lemma PassiveMoves(s: System, p: Pid, owner: Option<Pid>, heir: Option<Pid>)
    requires InvFor(s, owner, heir) && p < |s.procs| && s.procs[p].Passive? && s.procs[p].other.Some?
    ensures !Quiet(s)
  {
    if s.c.action.Some? {
      OwnerMoves(s, owner, heir);
    } else {
      assert Enabled(s, WakePassive(p));
    }
  }

  /** A quiet state that is neither settled nor doomed does not exist. */
  lemma QuietIsSettledOrDoomed(s: System)
    requires Inv(s) && Quiet(s)
    ensures Settled(s) || Doomed(s)
  {
    var owner: Option<Pid>, heir: Option<Pid> :| InvFor(s, owner, heir);
    if owner.Some? {
      OwnerMoves(s, owner, heir);
    } else if heir.Some? {
      HeirMoves(s, heir.value, owner, heir);
    }
  }

  lemma {:induction false} NotDoomedByCompletions(s: System, run: seq<Step>)
    requires Inv(s) && !Doomed(s) && Valid(s, run) && NoRequests(run)
    ensures Inv(Final(s, run)) && !Doomed(Final(s, run))
    decreases |run|
  {
    if run != [] {
      assert !IsRequest(run[0]);
      StepKeepsInv(s, run[0]);
      DoomArisesExactly(s, run[0]);
      NotDoomedByCompletions(Apply(s, run[0]), run[1..]);
    }
  }

  /**
   From any reachable state, run the outstanding work in any order until nothing
   is left to run: the client is then connected or disconnected if and only if
   the state was not doomed.
   */
  lemma SettlesExactlyUnlessDoomed(s: System, run: seq<Step>)
    requires Reachable(s) && Valid(s, run) && NoRequests(run) && Quiet(Final(s, run))
    ensures Settled(Final(s, run)) <==> !Doomed(s)
  {
    ReachableInv(s);
    if Doomed(s) {
      DoomedForever(s, run);
    } else {
      NotDoomedByCompletions(s, run);
      QuietIsSettledOrDoomed(Final(s, run));
    }
  }

  /** Such a run always exists. */
  lemma {:induction false} SettlingRunExists(s: System)
    ensures exists run :: Valid(s, run) && NoRequests(run) && Quiet(Final(s, run))
    decreases Rank(s.procs)
  {
    if Quiet(s) {
      assert Valid(s, []) && NoRequests([]) && Final(s, []) == s;
    } else {
      var st: Step :| Enabled(s, st) && !IsRequest(st);
      CompletionDecreases(s, st);
      SettlingRunExists(Apply(s, st));
      var run :| Valid(Apply(s, st), run) && NoRequests(run) && Quiet(Final(Apply(s, st), run));
      var whole := [st] + run;
      assert whole[1..] == run;
      assert Valid(s, whole) && NoRequests(whole) && Final(s, whole) == Final(Apply(s, st), run);
    }
  }

  // ---------- which calls return ----------

  /** A second `Disconnecting` captures a nil channel exactly when nobody holds a callback: between an attempt's end and its heir's next step, or in a doomed state. */
  lemma NilCapturedExactly(s: System, p: Pid)
    requires Inv(s) && Enabled(s, CallDisconnect(p))
    ensures Apply(s, CallDisconnect(p)).procs[p] == Passive(None) <==>
            s.c.status == Disconnecting && forall q :: 0 <= q < |s.procs| ==> !Owns(s.procs[q])
  {
    var owner: Option<Pid>, heir: Option<Pid> :| InvFor(s, owner, heir);
    if owner.Some? {
      assert Owns(s.procs[owner.value]);
    }
  }

  /** A waiter that captured a nil channel never returns, and no other step makes one. */
  lemma {:induction false} NilPassiveStays(s: System, p: Pid, run: seq<Step>)
    requires p < |s.procs| && Valid(s, run)
    ensures p < |Final(s, run).procs|
    ensures s.procs[p] == Passive(None) ==> Final(s, run).procs[p] == Passive(None)
    ensures NoRequests(run) && Final(s, run).procs[p] == Passive(None) ==> s.procs[p] == Passive(None)
    decreases |run|
  {
    if run != [] {
      assert NoRequests(run) ==> !IsRequest(run[0]) && NoRequests(run[1..]);
      NilPassiveStays(Apply(s, run[0]), p, run[1..]);
    }
  }

  /** When nothing is left to run, every goroutine is idle or waits on a nil channel. */
  lemma QuietIsIdle(s: System, p: Pid)
    requires Inv(s) && Quiet(s) && p < |s.procs|
    ensures s.procs[p].Idle? || s.procs[p] == Passive(None)
  {
    var owner: Option<Pid>, heir: Option<Pid> :| InvFor(s, owner, heir);
    var q := s.procs[p];
    if Owns(q) {
      OwnerMoves(s, owner, heir);
    } else if IsHeir(q) {
      HeirMoves(s, p, owner, heir);
    } else if q.Passive? && q.other.Some? {
      PassiveMoves(s, p, owner, heir);
    }
  }

  /**
   From any reachable state, run the outstanding work in any order until nothing is
   left to run: a call has then returned if and only if it was not a `Disconnecting`
   that had captured a nil channel.
   */
  lemma CallReturnsExactly(s: System, p: Pid, run: seq<Step>)
    requires Reachable(s) && p < |s.procs| && Valid(s, run) && NoRequests(run) && Quiet(Final(s, run))
    ensures p < |Final(s, run).procs|
    ensures Final(s, run).procs[p].Idle? <==> s.procs[p] != Passive(None)
  {
    ReachableInv(s);
    RunKeepsInv(s, run);
    NilPassiveStays(s, p, run);
    QuietIsIdle(Final(s, run), p);
  }

  lemma Prepend(s: System, st: Step, rest: seq<Step>)
    requires Enabled(s, st) && Valid(Apply(s, st), rest)
    ensures Valid(s, [st] + rest) && Final(s, [st] + rest) == Final(Apply(s, st), rest)
  {
    assert ([st] + rest)[1..] == rest;
  }

  /** Such a call exists: two disconnects during a connect attempt; the first succeeds, the second hangs. */
  lemma SecondDisconnectCanHang() returns (run: seq<Step>)
    ensures Hangs(Initial(3), run)
  {
    var s0 := Initial(3);
    assert s0.procs == [Idle, Idle, Idle];
    var s1 := Apply(s0, CallConnect(0));
    var s2 := Apply(s1, CallDisconnect(1));
    var s3 := Apply(s2, RunConnected(0, true));
    run := HangsFrom(s3);
    Prepend(s2, RunConnected(0, true), run);
    Prepend(s1, CallDisconnect(1), [RunConnected(0, true)] + run);
    Prepend(s0, CallConnect(0), [CallDisconnect(1)] + ([RunConnected(0, true)] + run));
    run := [CallConnect(0)] + ([CallDisconnect(1)] + ([RunConnected(0, true)] + run));
  }

  ghost predicate Hangs(s: System, run: seq<Step>) {
    && Valid(s, run)
    && Final(s, run).c.status == Disconnected && Final(s, run).procs == [Idle, Idle, Passive(None)]
  }

  /** The attempt has ended, the first disconnect has not woken up yet: the second meets a nil channel. */
  lemma HangsFrom(s: System) returns (run: seq<Step>)
    requires s == System(Shared(Disconnecting, false, None, 1, {0}, false), [Idle, DiscWait(Connecting, Some(0)), Idle])
    ensures Hangs(s, run)
  {
    var s1 := Apply(s, CallDisconnect(2));
    var s2 := Apply(s1, WakeDisconnect(1));
    var s3 := Apply(s2, RelockDisconnect(1));
    var s4 := Apply(s3, RunDisconnected(1));
    assert s4.procs == [Idle, Idle, Passive(None)];
    assert Final(s4, []) == s4;
    Prepend(s3, RunDisconnected(1), []);
    Prepend(s2, RelockDisconnect(1), [RunDisconnected(1)] + []);
    Prepend(s1, WakeDisconnect(1), [RelockDisconnect(1)] + ([RunDisconnected(1)] + []));
    run := [WakeDisconnect(1)] + ([RelockDisconnect(1)] + ([RunDisconnected(1)] + []));
    Prepend(s, CallDisconnect(2), run);
    run := [CallDisconnect(2)] + run;
  }

  /**
   The status promises of the API do not include that `disconnecting` ends: a loss
   without reconnect during the first connect attempt leaves it there for good.
   */
  lemma DisconnectingCanLastForever()
    ensures var run := [CallConnect(0), CallLoss(1, false), RunConnected(0, true), WakeLoss(1)];
            Valid(Initial(2), run) && Doomed(Final(Initial(2), run)) && Quiet(Final(Initial(2), run))
  {
    var s0 := Initial(2);
    var s1 := Apply(s0, CallConnect(0));
    var s2 := Apply(s1, CallLoss(1, false));
    var s3 := Apply(s2, RunConnected(0, true));
    var s4 := Apply(s3, WakeLoss(1));
    var run := [CallConnect(0), CallLoss(1, false), RunConnected(0, true), WakeLoss(1)];
    assert run[1..] == [CallLoss(1, false), RunConnected(0, true), WakeLoss(1)];
    assert run[1..][1..] == [RunConnected(0, true), WakeLoss(1)];
    assert run[1..][1..][1..] == [WakeLoss(1)];
    assert s4.procs == [Idle, Idle];
    assert Final(s3, [WakeLoss(1)]) == s4;
    assert Final(s2, run[1..][1..]) == s4;
    assert Final(s1, run[1..]) == s4;
    assert Final(s0, run) == s4;
  }
}
