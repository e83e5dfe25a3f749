/**
 The connection status of a client (client/status.go).

 Every critical section of the source is one function on the shared fields, and
 one method of `StatusCell` that performs it in place. `Disconnecting` and
 `ConnectionLost` give up the lock while they wait for a connect attempt to end,
 so each of them is two sections: one up to the wait and one after it.
 */
module Status {
  import opened Wrappers

  datatype Status = Disconnected | Disconnecting | Connecting | Reconnecting | Connected

  /** The identity of one `make(chan struct{})`. */
  type Channel = nat

  /**
   The fields of the source's struct, with the channels made so far (numbered in
   order), those closed so far, and whether some `close` panicked.
   */
  datatype Shared = Shared(
    status: Status,
    willReconnect: bool,
    action: Option<Channel>,
    made: nat,
    closed: set<Channel>,
    panicked: bool)

  const FRESH := Shared(Disconnected, false, None, 0, {}, false)

  datatype ConnectResult = ConnectGranted | AlreadyConnectedOrReconnecting | MustBeDisconnected
  datatype DisconnectResult =
    | DisconnectGranted
    | AlreadyDisconnected
    | WaitForOther(other: Option<Channel>)
    | WaitForConnect(prev: Status, attempt: Option<Channel>)
  datatype LossResult =
    | LossGranted
    | LossAlreadyDisconnected
    | LossWhileDisconnecting
    | LossWaitForConnect(attempt: Option<Channel>)
  datatype HandledResult = HandledDone | DisconnectionRequested | MayReconnect

  function MakeAction(c: Shared): Shared {
    c.(action := Some(c.made), made := c.made + 1)
  }

  /** `close(c.actionCompleted); c.actionCompleted = nil`, which panics on a nil or closed channel. */
  function CloseAction(c: Shared): Shared {
    if c.action.None? || c.action.value in c.closed then
      c.(panicked := true, action := None)
    else
      c.(closed := c.closed + {c.action.value}, action := None)
  }

  function BeginConnect(c: Shared): (Shared, ConnectResult) {
    match c.status
    case Connected | Reconnecting => (c, AlreadyConnectedOrReconnecting)
    case Disconnected => (MakeAction(c.(status := Connecting)), ConnectGranted)
    case _ => (c, MustBeDisconnected)
  }

  /** The completion callback of a connect attempt; the flag says whether it was aborted. */
  function EndConnect(c: Shared, success: bool): (Shared, bool) {
    if c.status == Disconnecting then (CloseAction(c), true)
    else (CloseAction(c.(status := if success then Connected else Disconnected)), false)
  }

  function BeginDisconnect(c: Shared): (Shared, DisconnectResult) {
    match c.status
    case Disconnected => (c, AlreadyDisconnected)
    case Disconnecting => (c.(willReconnect := false), WaitForOther(c.action))
    case Connected => (MakeAction(c.(status := Disconnecting)), DisconnectGranted)
    case _ => (c.(status := Disconnecting), WaitForConnect(c.status, c.action))
  }

  function EndDisconnect(c: Shared): Shared {
    CloseAction(c.(status := Disconnected))
  }

  function BeginLoss(c: Shared, will: bool): (Shared, LossResult) {
    match c.status
    case Disconnected => (c, LossAlreadyDisconnected)
    case Disconnecting => (c, LossWhileDisconnecting)
    case Connected =>
      (MakeAction(c.(status := Disconnecting, willReconnect := will)), LossGranted)
    case _ =>
      (c.(status := Disconnecting, willReconnect := will), LossWaitForConnect(c.action))
  }

  /** After the wait: the call gives up unless a reconnect was asked for. */
  function ResumeLoss(c: Shared, will: bool): (Shared, LossResult) {
    if will then (MakeAction(c), LossGranted) else (c, LossAlreadyDisconnected)
  }

  function HandleLoss(c: Shared, requested: bool, proceed: bool): (Shared, HandledResult) {
    if !c.willReconnect || !proceed then
      (EndDisconnect(c), if !requested || !proceed then HandledDone else DisconnectionRequested)
    else
      (c.(status := Reconnecting), MayReconnect)
  }

  /** The struct itself, updated in place by the critical sections above. */
  class StatusCell {
    var status: Status
    var willReconnect: bool
    var actionCompleted: Option<Channel>
    var made: nat
    var closed: set<Channel>
    var panicked: bool

    ghost function View(): Shared
      reads this
    {
      Shared(status, willReconnect, actionCompleted, made, closed, panicked)
    }

    constructor ()
      ensures View() == FRESH
    {
      status, willReconnect, actionCompleted := Disconnected, false, None;
      made, closed, panicked := 0, {}, false;
    }

    method MakeChannel()
      modifies this
      ensures View() == MakeAction(old(View()))
    {
      actionCompleted := Some(made);
      made := made + 1;
    }

    method CloseChannel()
      modifies this
      ensures View() == CloseAction(old(View()))
    {
      if actionCompleted.None? || actionCompleted.value in closed {
        panicked := true;
      } else {
        closed := closed + {actionCompleted.value};
      }
      actionCompleted := None;
    }

    method StartConnecting() returns (r: ConnectResult)
      modifies this
      ensures (View(), r) == BeginConnect(old(View()))
    {
      if status == Connected || status == Reconnecting {
        return AlreadyConnectedOrReconnecting;
      }
      if status != Disconnected {
        return MustBeDisconnected;
      }
      status := Connecting;
      MakeChannel();
      return ConnectGranted;
    }

    method ConnectCompleted(success: bool) returns (aborted: bool)
      modifies this
      ensures (View(), aborted) == EndConnect(old(View()), success)
    {
      if status == Disconnecting {
        CloseChannel();
        return true;
      }
      if success {
        status := Connected;
      } else {
        status := Disconnected;
      }
      CloseChannel();
      return false;
    }

    method StartDisconnecting() returns (r: DisconnectResult)
      modifies this
      ensures (View(), r) == BeginDisconnect(old(View()))
    {
      if status == Disconnected {
        return AlreadyDisconnected;
      }
      if status == Disconnecting {
        willReconnect := false;
        return WaitForOther(actionCompleted);
      }
      var prevStatus := status;
      status := Disconnecting;
      if prevStatus == Connecting || prevStatus == Reconnecting {
        return WaitForConnect(prevStatus, actionCompleted);
      }
      MakeChannel();
      return DisconnectGranted;
    }

    method DisconnectionCompleted()
      modifies this
      ensures View() == EndDisconnect(old(View()))
    {
      status := Disconnected;
      CloseChannel();
    }

    method StartConnectionLost(will: bool) returns (r: LossResult)
      modifies this
      ensures (View(), r) == BeginLoss(old(View()), will)
    {
      if status == Disconnected {
        return LossAlreadyDisconnected;
      }
      if status == Disconnecting {
        return LossWhileDisconnecting;
      }
      willReconnect := will;
      var prevStatus := status;
      status := Disconnecting;
      if prevStatus == Connecting || prevStatus == Reconnecting {
        return LossWaitForConnect(actionCompleted);
      }
      MakeChannel();
      return LossGranted;
    }

    method ResumeConnectionLost(will: bool) returns (r: LossResult)
      modifies this
      ensures (View(), r) == ResumeLoss(old(View()), will)
    {
      if !will {
        return LossAlreadyDisconnected;
      }
      MakeChannel();
      return LossGranted;
    }

    method ConnectionLostHandled(requested: bool, proceed: bool) returns (r: HandledResult)
      modifies this
      ensures (View(), r) == HandleLoss(old(View()), requested, proceed)
    {
      if !willReconnect || !proceed {
        status := Disconnected;
        CloseChannel();
        if !requested || !proceed {
          return HandledDone;
        }
        return DisconnectionRequested;
      }
      status := Reconnecting;
      return MayReconnect;
    }
  }
}
