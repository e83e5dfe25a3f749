/**
 Several goroutines writing frames to one connection: in the client the keepalive loop
 (client/keepalive.go) and the outgoing loop (client/net.go) under `connWriteMu`, and the
 incoming loop, which writes a DISCONNECT without it; in the server `Write` and
 `SendDisconnect` (server/conn.go) under `dc.mu`, and the read loop (server/server.go),
 which writes PINGRESP and DISCONNECT without it. A frame written under the lock reaches
 the wire in pieces of any size, and its write may fail at any point.
 */
module WriteLock {
  import opened Wrappers
  import opened Bits
  import opened Stream
  import opened LengthField
  import opened Codec

  /** A packet that was handed to the connection, and whether all of it was written. */
  datatype Attempt = Attempt(packet: Packet, written: bool)

  /** One goroutine: the packets it has dealt with, the one it is writing, and those to come. */
  datatype Writer = Writer(done: seq<Attempt>, current: Option<Packet>, queue: seq<Packet>)

  /**
   `unsent` is what is still to come of the frame being written; `log` is who wrote what,
   in order of completion. `torn` is how long the log was when a frame was first left
   incomplete or broken into.
   */
  datatype Conn = Conn(
    writers: seq<Writer>,
    mu: Option<nat>,
    unsent: seq<byte>,
    wire: seq<byte>,
    log: seq<(nat, Packet)>,
    torn: Option<nat>)

  datatype Step =
    | Lock(w: nat)
    | Send(w: nat, size: nat)
    | Fail(w: nat)          // the write returns an error
    | Unlock(w: nat)
    | Barge(p: Packet)      // written without the lock

  predicate Writing(c: Conn, w: nat) {
    w < |c.writers| && c.mu == Some(w) && c.writers[w].current.Some?
  }

  predicate Enabled(c: Conn, st: Step) {
    match st
    case Lock(w) => w < |c.writers| && c.mu.None? && c.writers[w].queue != []
    case Send(w, size) => Writing(c, w) && 0 < size <= |c.unsent|
    case Fail(w) => Writing(c, w)
    case Unlock(w) => w < |c.writers| && c.mu == Some(w) && c.writers[w].current.None?
    case Barge(p) => WellFormed(p)
  }

  /** The frame being written. */
  function Frame(c: Conn): seq<byte> {
    if c.mu.Some? && Writing(c, c.mu.value) then Encode(c.writers[c.mu.value].current.value) else []
  }

  /** All of a frame but its last bytes `unsent`. */
  function Before(frame: seq<byte>, unsent: seq<byte>): seq<byte> {
    if |unsent| <= |frame| then frame[..|frame| - |unsent|] else []
  }

  /** The part of the current frame that is on the wire. */
  function Partial(c: Conn): seq<byte> {
    Before(Frame(c), c.unsent)
  }

  /** A frame is abandoned or broken into after its first byte. */
  function Tear(c: Conn): Option<nat> {
    if c.torn.None? && Partial(c) != [] then Some(|c.log|) else c.torn
  }

  function Close(w: Writer, written: bool): Writer
    requires w.current.Some?
  {
    Writer(w.done + [Attempt(w.current.value, written)], None, w.queue)
  }

  function Apply(c: Conn, st: Step): Conn
    requires Enabled(c, st)
  {
    match st
    case Lock(i) =>
      var w := c.writers[i];
      c.(mu := Some(i), unsent := Encode(w.queue[0]),
         writers := c.writers[i := Writer(w.done, Some(w.queue[0]), w.queue[1..])])
    case Send(i, size) =>
      var c' := c.(wire := c.wire + c.unsent[..size], unsent := c.unsent[size..]);
      if size < |c.unsent| then c'
      else c'.(log := c.log + [(i, c.writers[i].current.value)],
               writers := c.writers[i := Close(c.writers[i], true)])
    case Fail(i) => c.(unsent := [], torn := Tear(c), writers := c.writers[i := Close(c.writers[i], false)])
    case Unlock(_) => c.(mu := None)
    case Barge(p) => c.(wire := c.wire + Encode(p), torn := Tear(c), log := c.log + [(|c.writers|, p)])
  }

  predicate Valid(c: Conn, run: seq<Step>)
    decreases |run|
  {
    run == [] || (Enabled(c, run[0]) && Valid(Apply(c, run[0]), run[1..]))
  }

  function Final(c: Conn, run: seq<Step>): Conn
    requires Valid(c, run)
    decreases |run|
  {
    if run == [] then c else Final(Apply(c, run[0]), run[1..])
  }

  function Begin(queues: seq<seq<Packet>>): Conn {
    Conn(seq(|queues|, i requires 0 <= i < |queues| => Writer([], None, queues[i])), None, [], [], [], None)
  }

  // ---------- the writers ----------

  function Packets(log: seq<(nat, Packet)>): seq<Packet> {
    seq(|log|, i requires 0 <= i < |log| => log[i].1)
  }

  /** The entries of the log that belong to one writer. */
  function Own(log: seq<(nat, Packet)>, w: nat): seq<Packet> {
    if log == [] then []
    else
      var last := log[|log| - 1];
      Own(log[..|log| - 1], w) + (if last.0 == w then [last.1] else [])
  }

  /** Everything dealt with, in order. */
  function Tried(done: seq<Attempt>): seq<Packet> {
    seq(|done|, i requires 0 <= i < |done| => done[i].packet)
  }

  /** Everything written, in order. */
  function Written(done: seq<Attempt>): seq<Packet> {
    if done == [] then []
    else
      var last := done[|done| - 1];
      Written(done[..|done| - 1]) + (if last.written then [last.packet] else [])
  }

  /** Everything a writer had to send, in order. */
  function Work(w: Writer): seq<Packet> {
    Tried(w.done) + (if w.current.Some? then [w.current.value] else []) + w.queue
  }

  /** Every packet of a writer is accounted for, and those it wrote are its entries of the log. */
  ghost predicate Accounted(w: Writer, own: seq<Packet>, queue: seq<Packet>) {
    Work(w) == queue && own == Written(w.done)
  }

  ghost predicate WritersInv(writers: seq<Writer>, mu: Option<nat>, log: seq<(nat, Packet)>, queues: seq<seq<Packet>>) {
    && |writers| == |queues|
    && (mu.Some? ==> mu.value < |writers|)
    && (forall i :: 0 <= i < |writers| ==> (writers[i].current.Some? ==> mu == Some(i)) && Accounted(writers[i], Own(log, i), queues[i]))
  }

  lemma OwnAppend(log: seq<(nat, Packet)>, i: nat, p: Packet, w: nat)
    ensures Own(log + [(i, p)], w) == Own(log, w) + (if i == w then [p] else [])
  {
    assert (log + [(i, p)])[..|log|] == log;
  }

  lemma CloseAccounted(w: Writer, written: bool, own: seq<Packet>, queue: seq<Packet>)
    requires w.current.Some? && Accounted(w, own, queue)
    ensures Accounted(Close(w, written), own + (if written then [w.current.value] else []), queue)
  {
    var done := Close(w, written).done;
    assert done[..|done| - 1] == w.done;
    assert Tried(done) == Tried(w.done) + [w.current.value];
    assert Work(Close(w, written)) == Work(w);
  }

  lemma OpenAccounted(w: Writer, own: seq<Packet>, queue: seq<Packet>)
    requires w.current.None? && w.queue != [] && Accounted(w, own, queue)
    ensures Accounted(Writer(w.done, Some(w.queue[0]), w.queue[1..]), own, queue)
  {
    assert w.queue == [w.queue[0]] + w.queue[1..];
    assert Work(Writer(w.done, Some(w.queue[0]), w.queue[1..])) == Work(w);
  }

  lemma WritersStep(c: Conn, queues: seq<seq<Packet>>, st: Step)
    requires WritersInv(c.writers, c.mu, c.log, queues) && Enabled(c, st)
    ensures var c' := Apply(c, st);
            WritersInv(c'.writers, c'.mu, c'.log, queues)
  {
    var c' := Apply(c, st);
    forall i | 0 <= i < |c'.writers|
      ensures (c'.writers[i].current.Some? ==> c'.mu == Some(i)) && Accounted(c'.writers[i], Own(c'.log, i), queues[i])
    {
      var w, own := c.writers[i], Own(c.log, i);
      assert Accounted(w, own, queues[i]);
      match st
      case Lock(j) =>
        if i == j {
          OpenAccounted(w, own, queues[i]);
        }
      case Send(j, size) =>
        if size == |c.unsent| {
          OwnAppend(c.log, j, c.writers[j].current.value, i);
        }
        if i == j {
          CloseAccounted(w, true, own, queues[i]);
        }
      case Fail(j) =>
        if i == j {
          CloseAccounted(w, false, own, queues[i]);
        }
      case Barge(p) => OwnAppend(c.log, |c.writers|, p, i);
      case _ =>
    }
  }

  // ---------- the wire ----------

  ghost predicate AllWellFormed(queues: seq<seq<Packet>>) {
    forall i, p :: 0 <= i < |queues| && p in queues[i] ==> WellFormed(p)
  }

  ghost predicate LogWellFormed(log: seq<(nat, Packet)>) {
    forall i :: 0 <= i < |log| ==> WellFormed(log[i].1)
  }

  lemma WorkHolds(w: Writer)
    requires w.current.Some?
    ensures w.current.value in Work(w)
  {
    assert Work(w)[|w.done|] == w.current.value;
  }

  lemma CurrentWellFormed(c: Conn, queues: seq<seq<Packet>>, w: nat)
    requires WritersInv(c.writers, c.mu, c.log, queues) && AllWellFormed(queues) && Writing(c, w)
    ensures WellFormed(c.writers[w].current.value)
  {
    WorkHolds(c.writers[w]);
    assert Accounted(c.writers[w], Own(c.log, w), queues[w]);
  }

  lemma LogStep(c: Conn, queues: seq<seq<Packet>>, st: Step)
    requires WritersInv(c.writers, c.mu, c.log, queues) && AllWellFormed(queues) && LogWellFormed(c.log) && Enabled(c, st)
    ensures LogWellFormed(Apply(c, st).log)
  {
    if st.Send? {
      CurrentWellFormed(c, queues, st.w);
    }
  }

  /** The frame is what has been sent of it and what has not, the latter not empty. */
  ghost predicate FrameInv(frame: seq<byte>, unsent: seq<byte>) {
    frame == Before(frame, unsent) + unsent && (frame != [] ==> unsent != [])
  }

  /** While nothing is torn, the wire holds the logged frames and a beginning of the current one. */
  ghost predicate StreamInv(wire: seq<byte>, log: seq<(nat, Packet)>, torn: Option<nat>, partial: seq<byte>) {
    match torn
    case None => wire == EncodeAll(Packets(log)) + partial
    case Some(n) => n <= |log| && EncodeAll(Packets(log[..n])) <= wire
  }

  ghost predicate WireInv(c: Conn) {
    FrameInv(Frame(c), c.unsent) && StreamInv(c.wire, c.log, c.torn, Partial(c))
  }

  lemma {:induction false} EncodeAllAppend(ps: seq<Packet>, p: Packet)
    ensures EncodeAll(ps + [p]) == EncodeAll(ps) + Encode(p)
  {
    if ps == [] {
      assert ps + [p] == [p];
      assert EncodeAll([p][1..]) == [];
    } else {
      assert (ps + [p])[1..] == ps[1..] + [p];
      EncodeAllAppend(ps[1..], p);
    }
  }

  lemma LogAppend(log: seq<(nat, Packet)>, w: nat, p: Packet)
    ensures EncodeAll(Packets(log + [(w, p)])) == EncodeAll(Packets(log)) + Encode(p)
    ensures forall n :: 0 <= n <= |log| ==> (log + [(w, p)])[..n] == log[..n]
  {
    assert Packets(log + [(w, p)]) == Packets(log) + [p];
    EncodeAllAppend(Packets(log), p);
  }

  lemma SentMore(frame: seq<byte>, unsent: seq<byte>, size: nat)
    requires frame == Before(frame, unsent) + unsent && size <= |unsent|
    ensures Before(frame, unsent[size..]) == Before(frame, unsent) + unsent[..size]
    ensures frame == Before(frame, unsent[size..]) + unsent[size..]
  {
    assert unsent == unsent[..size] + unsent[size..];
  }

  lemma StreamGrows(wire: seq<byte>, log: seq<(nat, Packet)>, torn: Option<nat>, partial: seq<byte>, more: seq<byte>)
    requires StreamInv(wire, log, torn, partial)
    ensures StreamInv(wire + more, log, torn, partial + more)
  {
    assert EncodeAll(Packets(log)) + partial + more == EncodeAll(Packets(log)) + (partial + more);
  }

  lemma StreamCompletes(wire: seq<byte>, log: seq<(nat, Packet)>, torn: Option<nat>, w: nat, p: Packet)
    requires StreamInv(wire, log, torn, Encode(p))
    ensures StreamInv(wire, log + [(w, p)], torn, [])
  {
    LogAppend(log, w, p);
    assert EncodeAll(Packets(log + [(w, p)])) + [] == EncodeAll(Packets(log + [(w, p)]));
  }

  lemma StreamTears(wire: seq<byte>, log: seq<(nat, Packet)>, partial: seq<byte>)
    requires StreamInv(wire, log, None, partial)
    ensures StreamInv(wire, log, Some(|log|), [])
  {
    assert log[..|log|] == log;
  }

  lemma TornLogs(wire: seq<byte>, log: seq<(nat, Packet)>, n: nat, partial: seq<byte>, w: nat, p: Packet, more: seq<byte>)
    requires StreamInv(wire, log, Some(n), [])
    ensures StreamInv(wire + more, log + [(w, p)], Some(n), partial)
  {
    LogAppend(log, w, p);
  }

  lemma SendStep(c: Conn, w: nat, size: nat)
    requires WireInv(c) && Enabled(c, Send(w, size))
    ensures WireInv(Apply(c, Send(w, size)))
  {
    var c' := Apply(c, Send(w, size));
    SentMore(Frame(c), c.unsent, size);
    StreamGrows(c.wire, c.log, c.torn, Partial(c), c.unsent[..size]);
    if size < |c.unsent| {
      assert Frame(c') == Frame(c);
    } else {
      assert Before(Frame(c), []) == Frame(c) && Before([], []) == [];
      StreamCompletes(c'.wire, c.log, c.torn, w, c.writers[w].current.value);
      assert Frame(c') == [] && c'.unsent == [];
    }
  }

  lemma BargeStep(c: Conn, p: Packet)
    requires WireInv(c) && WellFormed(p)
    ensures WireInv(Apply(c, Barge(p)))
  {
    var c' := Apply(c, Barge(p));
    assert Frame(c') == Frame(c);
    StreamBarges(c.wire, c.log, c.torn, Partial(c), |c.writers|, p);
  }

  lemma StreamBarges(wire: seq<byte>, log: seq<(nat, Packet)>, torn: Option<nat>, partial: seq<byte>, w: nat, p: Packet)
    requires StreamInv(wire, log, torn, partial)
    ensures StreamInv(wire + Encode(p), log + [(w, p)], if torn.None? && partial != [] then Some(|log|) else torn, partial)
  {
    if torn.Some? {
      TornLogs(wire, log, torn.value, partial, w, p, Encode(p));
    } else if partial != [] {
      StreamTears(wire, log, partial);
      TornLogs(wire, log, |log|, partial, w, p, Encode(p));
    } else {
      StreamGrows(wire, log, None, [], Encode(p));
      assert [] + Encode(p) == Encode(p);
      StreamCompletes(wire + Encode(p), log, None, w, p);
    }
  }

  lemma FailStep(c: Conn, w: nat)
    requires WireInv(c) && Enabled(c, Fail(w))
    ensures WireInv(Apply(c, Fail(w)))
  {
    var c' := Apply(c, Fail(w));
    assert Frame(c') == [] == Partial(c');
    if c.torn.None? && c'.torn.Some? {
      StreamTears(c.wire, c.log, Partial(c));
    }
  }

  lemma WireStep(c: Conn, st: Step)
    requires WireInv(c) && Enabled(c, st)
    ensures WireInv(Apply(c, st))
  {
    var c' := Apply(c, st);
    match st
    case Lock(w) =>
      assert Frame(c') == c'.unsent && Partial(c) == [] == Partial(c');
    case Send(w, size) => SendStep(c, w, size);
    case Fail(w) => FailStep(c, w);
    case Unlock(w) => assert Frame(c) == Frame(c') == [];
    case Barge(p) => BargeStep(c, p);
  }

  ghost predicate Inv(c: Conn, queues: seq<seq<Packet>>) {
    && WritersInv(c.writers, c.mu, c.log, queues)
    && LogWellFormed(c.log)
    && WireInv(c)
  }

  lemma {:induction false} RunKeepsInv(c: Conn, queues: seq<seq<Packet>>, run: seq<Step>)
    requires Inv(c, queues) && AllWellFormed(queues) && Valid(c, run)
    ensures Inv(Final(c, run), queues)
    decreases |run|
  {
    if run != [] {
      WritersStep(c, queues, run[0]);
      LogStep(c, queues, run[0]);
      WireStep(c, run[0]);
      RunKeepsInv(Apply(c, run[0]), queues, run[1..]);
    }
  }

  // ---------- what the peer reads ----------

  /** The packets sent before the stream was torn, or all. */
  function Intact(c: Conn): nat
    requires c.torn.Some? ==> c.torn.value <= |c.log|
  {
    if c.torn.Some? then c.torn.value else |c.log|
  }

  /**
   At every moment of every interleaving, with any writes failing at any point and any
   number of writes without the lock, the peer reads the packets completed before the
   stream was torn, in the order of completion: each writer's packets in that writer's
   order, none changed, and only those missing whose write failed. While nothing is torn
   these are all, and what is left is a strict beginning of the frame being written, from
   which no packet can be read.
   */
  lemma PeerDecodesShuffle(queues: seq<seq<Packet>>, run: seq<Step>)
    requires Valid(Begin(queues), run) && AllWellFormed(queues)
    ensures var c := Final(Begin(queues), run);
            && |c.writers| == |queues|
            && (forall w :: 0 <= w < |queues| ==> Accounted(c.writers[w], Own(c.log, w), queues[w]))
            && (c.torn.Some? ==> c.torn.value <= |c.log|)
            && ReadMore(c.wire, Intact(c)).0 == Ok(Packets(c.log[..Intact(c)]))
            && (c.torn.None? ==>
                  && ReadMore(c.wire, |c.log|) == (Ok(Packets(c.log)), Partial(c))
                  && ReadPacket(Partial(c)).packet.Err?)
  {
    var c := Final(Begin(queues), run);
    RunKeepsInv(Begin(queues), queues, run);
    IntactDecodes(c);
    if c.torn.None? {
      PartialFails(c, queues);
    }
  }

  lemma IntactDecodes(c: Conn)
    requires WireInv(c) && LogWellFormed(c.log)
    ensures ReadMore(c.wire, Intact(c)).0 == Ok(Packets(c.log[..Intact(c)]))
    ensures c.torn.None? ==> ReadMore(c.wire, |c.log|) == (Ok(Packets(c.log)), Partial(c))
  {
    var sent := c.log[..Intact(c)];
    if c.torn.None? {
      assert sent == c.log;
      PrefixDecodes(sent, c.wire, Partial(c));
    } else {
      PrefixDecodes(sent, c.wire, c.wire[|EncodeAll(Packets(sent))|..]);
    }
  }

  lemma PrefixDecodes(log: seq<(nat, Packet)>, wire: seq<byte>, rest: seq<byte>)
    requires LogWellFormed(log) && wire == EncodeAll(Packets(log)) + rest
    ensures ReadMore(wire, |log|) == (Ok(Packets(log)), rest)
  {
    SequenceRoundTrips(Packets(log), rest);
  }

  lemma PartialFails(c: Conn, queues: seq<seq<Packet>>)
    requires Inv(c, queues) && AllWellFormed(queues)
    ensures ReadPacket(Partial(c)).packet.Err?
  {
    if Frame(c) != [] {
      var p := c.writers[c.mu.value].current.value;
      CurrentWellFormed(c, queues, c.mu.value);
      WellFormedMeans(p);
      StrictPrefixFails(TypeOf(p), Body(p), |Encode(p)| - |c.unsent|);
    }
  }

  /** A write fails, or goes past the lock, while a frame is partly on the wire. */
  predicate Interrupted(c: Conn, run: seq<Step>)
    requires Valid(c, run)
    decreases |run|
  {
    run != [] &&
    (((run[0].Fail? || run[0].Barge?) && Partial(c) != []) || Interrupted(Apply(c, run[0]), run[1..]))
  }

  lemma {:induction false} TornExactly(c: Conn, run: seq<Step>)
    requires Valid(c, run)
    ensures Final(c, run).torn.Some? <==> c.torn.Some? || Interrupted(c, run)
    decreases |run|
  {
    if run != [] {
      TornStep(c, run[0]);
      TornExactly(Apply(c, run[0]), run[1..]);
    }
  }

  lemma TornStep(c: Conn, st: Step)
    requires Enabled(c, st)
    ensures Apply(c, st).torn.Some? <==> c.torn.Some? || ((st.Fail? || st.Barge?) && Partial(c) != [])
  {
  }

  lemma {:induction false} WireRun(c: Conn, run: seq<Step>)
    requires Valid(c, run) && WireInv(c)
    ensures WireInv(Final(c, run))
    decreases |run|
  {
    if run != [] {
      WireStep(c, run[0]);
      WireRun(Apply(c, run[0]), run[1..]);
    }
  }

  // ---------- when the wire is right ----------

  /** The wire holds the completed frames in the order of completion and the beginning of the current one, and nothing else. */
  ghost predicate Right(c: Conn) {
    c.wire == EncodeAll(Packets(c.log)) + Partial(c)
  }

  /** How many bytes too many are on the wire. */
  function Excess(c: Conn): int {
    |c.wire| - |EncodeAll(Packets(c.log))| - |Partial(c)|
  }

  /** The packets written without a lock: the frame is a header, or a header and one byte. */
  predicate Bare(p: Packet) {
    p.Pingreq? || p.Pingresp? || p.Disconnect?
  }

  predicate BargesBare(run: seq<Step>) {
    forall i :: 0 <= i < |run| && run[i].Barge? ==> Bare(run[i].p)
  }

  /** Entry n of the log was written into the frame of q, of which x was on the wire. */
  ghost predicate BrokeInto(c: Conn, n: nat, x: seq<byte>, q: Packet) {
    && n < |c.log| && Bare(c.log[n].1) && WellFormed(c.log[n].1)
    && x != [] && x < Encode(q)
    && EncodeAll(Packets(c.log[..n])) + x + Encode(c.log[n].1) <= c.wire
  }

  ghost predicate Harmed(c: Conn) {
    Excess(c) > 0 || exists n: nat, x, q :: BrokeInto(c, n, x, q)
  }

  lemma ExcessSend(c: Conn, w: nat, size: nat)
    requires WireInv(c) && Enabled(c, Send(w, size))
    ensures Excess(Apply(c, Send(w, size))) == Excess(c)
  {
    var c' := Apply(c, Send(w, size));
    SentMore(Frame(c), c.unsent, size);
    if size < |c.unsent| {
      assert Frame(c') == Frame(c);
    } else {
      LogAppend(c.log, w, c.writers[w].current.value);
      assert Frame(c') == [];
    }
  }

  lemma ExcessBarge(c: Conn, p: Packet)
    requires WellFormed(p)
    ensures Excess(Apply(c, Barge(p))) == Excess(c)
  {
    LogAppend(c.log, |c.writers|, p);
    assert Frame(Apply(c, Barge(p))) == Frame(c);
  }

  lemma ExcessStep(c: Conn, st: Step)
    requires WireInv(c) && Enabled(c, st)
    ensures Excess(Apply(c, st)) == Excess(c) + (if st.Fail? then |Partial(c)| else 0)
  {
    var c' := Apply(c, st);
    match st
    case Lock(w) => assert Partial(c) == [] == Partial(c');
    case Send(w, size) => ExcessSend(c, w, size);
    case Fail(w) => assert Frame(c') == [];
    case Unlock(w) => assert Frame(c) == Frame(c') == [];
    case Barge(p) => ExcessBarge(c, p);
  }

  lemma BrokeIntoStays(c: Conn, st: Step, n: nat, x: seq<byte>, q: Packet)
    requires Enabled(c, st) && BrokeInto(c, n, x, q)
    ensures BrokeInto(Apply(c, st), n, x, q)
  {
    var c' := Apply(c, st);
    assert c.wire <= c'.wire;
    assert c.log <= c'.log;
    assert c'.log[..n] == c.log[..n] && c'.log[n] == c.log[n];
  }

  lemma BargeBreaks(c: Conn, p: Packet)
    requires WireInv(c) && c.torn.None? && Bare(p) && WellFormed(p) && Partial(c) != []
    ensures Harmed(Apply(c, Barge(p)))
  {
    var c' := Apply(c, Barge(p));
    var q := c.writers[c.mu.value].current.value;
    assert c'.log[..|c.log|] == c.log;
    assert Partial(c) < Encode(q);
    assert BrokeInto(c', |c.log|, Partial(c), q);
  }

  lemma HarmedStays(c: Conn, st: Step)
    requires WireInv(c) && Enabled(c, st) && Harmed(c)
    ensures Harmed(Apply(c, st))
  {
    ExcessStep(c, st);
    if Excess(c) <= 0 {
      var n: nat, x, q :| BrokeInto(c, n, x, q);
      BrokeIntoStays(c, st, n, x, q);
    }
  }

  // ---------- a frame does not fit into another ----------

  lemma {:induction false} FirstByte(ps: seq<Packet>, x: seq<byte>, q: Packet)
    requires x <= Encode(q) && EncodeAll(ps) + x != []
    ensures (EncodeAll(ps) + x)[0] >= 16
  {
    if ps != [] {
      assert (EncodeAll(ps) + x)[0] == Encode(ps[0])[0] == TypeOf(ps[0]) * 16;
    } else {
      assert (EncodeAll(ps) + x)[0] == x[0] == TypeOf(q) * 16;
    }
  }

  lemma BareFrame(p: Packet)
    requires Bare(p) && WellFormed(p)
    ensures Encode(p) == if p.Disconnect? then [0xE0, 1, p.reason] else [TypeOf(p) * 16, 0]
  {
    assert EncodeLen(0) == [0] && EncodeLen(1) == [1];
  }

  /** A frame that begins like a bare one is no longer than it. */
  lemma SameHeader(p: Packet, q: Packet)
    requires Bare(p) && WellFormed(p) && |Encode(q)| >= 2
    requires Encode(q)[0] == Encode(p)[0] && Encode(q)[1] == Encode(p)[1]
    ensures |Encode(q)| == |Encode(p)|
  {
    BareFrame(p);
    assert Encode(q)[0] == TypeOf(q) * 16 && Encode(q)[1] == EncodeLen(HeaderLength(q))[0];
    if q.Disconnect? {
      BareFrame(q);
    }
  }

  /** A bare frame put after a strict beginning of another cannot also be read in front of it. */
  lemma NoOverlap(p: Packet, q: Packet, x: seq<byte>, rest: seq<byte>, tail: seq<byte>)
    requires Bare(p) && WellFormed(p) && x != [] && x < Encode(q)
    requires tail != [] ==> tail[0] >= 16
    ensures x + Encode(p) + rest != Encode(p) + tail
  {
    var b := Encode(p);
    var s, t := x + b + rest, b + tail;
    BareFrame(p);
    if |x| == 1 {
      assert s[1] == b[0] >= 16 && t[1] == b[1] < 16;
    } else if x[0] == b[0] && x[1] == b[1] {
      SameHeader(p, q);
      if |b| == 3 && tail != [] {
        assert s[3] == b[1] == 1 && t[3] == tail[0];
      }
    } else {
      assert s[0] == x[0] && s[1] == x[1] && t[0] == b[0] && t[1] == b[1];
    }
  }

  lemma {:induction false} EncodeAllSplit(ps: seq<Packet>, n: nat)
    requires n < |ps|
    ensures EncodeAll(ps) == EncodeAll(ps[..n]) + (Encode(ps[n]) + EncodeAll(ps[n + 1..]))
  {
    if n > 0 {
      EncodeAllSplit(ps[1..], n - 1);
      assert ps[1..][..n - 1] == ps[..n][1..] && ps[1..][n..] == ps[n + 1..];
    } else {
      assert EncodeAll(ps[..0]) == [];
    }
  }

  lemma HeadsOff(head: seq<byte>, a: seq<byte>, b: seq<byte>)
    requires a != b
    ensures head + a != head + b
  {
    assert a == (head + a)[|head|..];
    assert b == (head + b)[|head|..];
  }

  /** What follows a prefix made of three parts. */
  lemma RestAfter(wire: seq<byte>, head: seq<byte>, x: seq<byte>, b: seq<byte>) returns (rest: seq<byte>)
    requires head + x + b <= wire
    ensures wire == head + (x + b + rest)
  {
    rest := wire[|head + x + b|..];
  }

  lemma Regroup(head: seq<byte>, b: seq<byte>, later: seq<byte>, partial: seq<byte>)
    ensures head + (b + later) + partial == head + (b + (later + partial))
  {
  }

  lemma BrokenDiffers(ps: seq<Packet>, n: nat, x: seq<byte>, q: Packet, wire: seq<byte>, partial: seq<byte>, current: Packet)
    requires n < |ps| && Bare(ps[n]) && WellFormed(ps[n]) && x != [] && x < Encode(q)
    requires EncodeAll(ps[..n]) + x + Encode(ps[n]) <= wire && partial <= Encode(current)
    ensures wire != EncodeAll(ps) + partial
  {
    var head, b, later := EncodeAll(ps[..n]), Encode(ps[n]), EncodeAll(ps[n + 1..]);
    var rest := RestAfter(wire, head, x, b);
    EncodeAllSplit(ps, n);
    Regroup(head, b, later, partial);
    if later + partial != [] {
      FirstByte(ps[n + 1..], partial, current);
    }
    NoOverlap(ps[n], q, x, rest, later + partial);
    HeadsOff(head, x + b + rest, b + (later + partial));
  }

  lemma PartialOf(c: Conn) returns (current: Packet)
    requires WireInv(c)
    ensures Partial(c) <= Encode(current)
  {
    current := if Frame(c) == [] then Pingreq(0) else c.writers[c.mu.value].current.value;
  }

  lemma BrokenNotRight(c: Conn, n: nat, x: seq<byte>, q: Packet)
    requires WireInv(c) && BrokeInto(c, n, x, q)
    ensures !Right(c)
  {
    assert Packets(c.log[..n]) == Packets(c.log)[..n];
    var current := PartialOf(c);
    BrokenDiffers(Packets(c.log), n, x, q, c.wire, Partial(c), current);
  }

  lemma HarmedNotRight(c: Conn)
    requires WireInv(c) && Harmed(c)
    ensures !Right(c)
  {
    if Excess(c) <= 0 {
      var n: nat, x, q :| BrokeInto(c, n, x, q);
      BrokenNotRight(c, n, x, q);
    }
  }

  lemma {:induction false} InterruptedHarms(c: Conn, run: seq<Step>)
    requires WireInv(c) && Valid(c, run) && BargesBare(run)
    requires Harmed(c) || (c.torn.None? && Interrupted(c, run))
    ensures WireInv(Final(c, run)) && Harmed(Final(c, run))
    decreases |run|
  {
    if run != [] {
      var st, c' := run[0], Apply(c, run[0]);
      WireStep(c, st);
      if Harmed(c) {
        HarmedStays(c, st);
      } else if Partial(c) != [] && st.Barge? {
        BargeBreaks(c, st.p);
      } else if Partial(c) != [] && st.Fail? {
        ExcessStep(c, st);
      } else {
        TornStep(c, st);
      }
      InterruptedHarms(c', run[1..]);
    }
  }

  /**
   The wire is right if and only if no write has failed, or gone past the lock, while a
   frame was partly on the wire: from then on no later step can put it right. This is so
   whatever the packets under the lock are, and for the packets that are written past it.
   */
  lemma RightExactly(queues: seq<seq<Packet>>, run: seq<Step>)
    requires Valid(Begin(queues), run) && BargesBare(run)
    ensures Right(Final(Begin(queues), run)) <==> !Interrupted(Begin(queues), run)
  {
    var c := Begin(queues);
    assert EncodeAll(Packets([])) == [];
    if Interrupted(c, run) {
      InterruptedHarms(c, run);
      HarmedNotRight(Final(c, run));
    } else {
      TornExactly(c, run);
      WireRun(c, run);
    }
  }

  /** A PUSH whose frame is one half twice. */
  const TWIN := Push(0, [0x30, 4, 0])

  const HALF: seq<byte> := [0x30, 4, 0]

  lemma TwinFrame()
    ensures Encode(TWIN) == HALF + HALF
  {
    assert EncodeLen(4) == [4];
  }

  ghost predicate Unnoticed(c: Conn, run: seq<Step>) {
    Valid(c, run) && Interrupted(c, run) && Right(Final(c, run))
  }

  lemma UnnoticedLater(c: Conn, st: Step, rest: seq<Step>)
    requires Enabled(c, st) && Unnoticed(Apply(c, st), rest)
    ensures Unnoticed(c, [st] + rest)
  {
    assert ([st] + rest)[1..] == rest;
  }

  lemma SlipIn(c: Conn) returns (run: seq<Step>)
    requires c == Conn([Writer([], Some(TWIN), [])], Some(0), HALF, HALF, [], None)
    ensures Unnoticed(c, run)
  {
    TwinFrame();
    run := [Barge(TWIN)];
    var c' := Apply(c, Barge(TWIN));
    assert Partial(c) == HALF == Partial(c');
    assert Packets(c'.log) == [TWIN] && [TWIN][1..] == [];
    assert EncodeAll([TWIN]) == Encode(TWIN) + EncodeAll([]) == HALF + HALF;
    assert c'.wire == HALF + (HALF + HALF) == (HALF + HALF) + HALF;
    assert run[1..] == [];
  }

  /** That the packets written past the lock are bare matters: a PUSH can slip into another unnoticed. */
  lemma PushCanSlipIn() returns (run: seq<Step>)
    ensures Unnoticed(Begin([[TWIN]]), run)
  {
    TwinFrame();
    var c0 := Begin([[TWIN]]);
    var c1 := Apply(c0, Lock(0));
    var c2 := Apply(c1, Send(0, 3));
    assert [TWIN][1..] == [];
    assert c2.writers == [Writer([], Some(TWIN), [])];
    assert c2.wire == HALF && c2.unsent == HALF;
    run := SlipIn(c2);
    UnnoticedLater(c1, Send(0, 3), run);
    UnnoticedLater(c0, Lock(0), [Send(0, 3)] + run);
    run := [Lock(0)] + ([Send(0, 3)] + run);
  }

  // ---------- torn streams ----------

  lemma Prepend(c: Conn, st: Step, rest: seq<Step>)
    requires Enabled(c, st) && Valid(Apply(c, st), rest)
    ensures Valid(c, [st] + rest) && Final(c, [st] + rest) == Final(Apply(c, st), rest)
  {
    assert ([st] + rest)[1..] == rest;
  }

  /** Both packets are completed, yet the peer reads neither. */
  ghost predicate LosesBoth(c: Conn, run: seq<Step>) {
    && Valid(c, run) && |Final(c, run).log| == 2
    && ReadPacket(Final(c, run).wire).packet.Err?
  }

  lemma ShortFrames()
    ensures Encode(Pingreq(0)) == [0x50, 0] && Encode(Disconnect(4)) == [0xE0, 1, 4]
  {
    assert EncodeLen(0) == [0] && EncodeLen(1) == [1];
  }

  /** A PINGREQ type byte in front of a DISCONNECT takes it for a length, of 224 bytes. */
  lemma SwallowsDisconnect(tail: seq<byte>)
    requires |tail| < 223
    ensures ReadPacket([0x50, 0xE0, 1, 4] + tail).packet == Err(UnexpectedEOF)
  {
    var s := [0x50, 0xE0, 1, 4] + tail;
    assert s[1..] == [0xE0, 1, 4] + tail && s[1..][1..] == [1, 4] + tail;
    assert DecodeLen(s[1..][1..], 3) == Ok((1, 1));
    assert DecodeLen(s[1..], 4) == Ok((224, 2));
    assert s[3..] == [4] + tail;
  }

  /** A DISCONNECT written without the lock between the two bytes of a PINGREQ. */
  lemma UnlockedWriteCorrupts() returns (run: seq<Step>)
    ensures LosesBoth(Begin([[Pingreq(0)]]), run)
  {
    ShortFrames();
    var c0 := Begin([[Pingreq(0)]]);
    var c1 := Apply(c0, Lock(0));
    assert c0.writers == [Writer([], None, [Pingreq(0)])];
    assert [Pingreq(0)][1..] == [];
    assert c1.writers == [Writer([], Some(Pingreq(0)), [])];
    run := BargeInto(c1);
    Prepend(c0, Lock(0), run);
    run := [Lock(0)] + run;
  }

  lemma BargeInto(c1: Conn) returns (run: seq<Step>)
    requires c1 == Conn([Writer([], Some(Pingreq(0)), [])], Some(0), [0x50, 0], [], [], None)
    ensures LosesBoth(c1, run)
  {
    ShortFrames();
    var c2 := Apply(c1, Send(0, 1));
    var c3 := Apply(c2, Barge(Disconnect(4)));
    var c4 := Apply(c3, Send(0, 1));
    assert c4.wire == [0x50, 0xE0, 1, 4] + [0];
    SwallowsDisconnect([0]);
    assert Final(c4, []) == c4;
    Prepend(c3, Send(0, 1), []);
    Prepend(c2, Barge(Disconnect(4)), [Send(0, 1)] + []);
    Prepend(c1, Send(0, 1), [Barge(Disconnect(4))] + ([Send(0, 1)] + []));
    run := [Send(0, 1)] + ([Barge(Disconnect(4))] + ([Send(0, 1)] + []));
  }

  /** The peer cannot read the one packet that was completed. */
  ghost predicate LosesNext(c: Conn, run: seq<Step>) {
    && Valid(c, run) && Packets(Final(c, run).log) == [Disconnect(4)]
    && ReadPacket(Final(c, run).wire).packet.Err?
  }

  /** A PINGREQ whose write fails after one byte, and a DISCONNECT under the lock after it. */
  lemma FailedWriteCorrupts() returns (run: seq<Step>)
    ensures LosesNext(Begin([[Pingreq(0), Disconnect(4)]]), run)
  {
    ShortFrames();
    var c0 := Begin([[Pingreq(0), Disconnect(4)]]);
    var c1 := Apply(c0, Lock(0));
    var c2 := Apply(c1, Send(0, 1));
    var c3 := Apply(c2, Fail(0));
    assert c0.writers == [Writer([], None, [Pingreq(0), Disconnect(4)])];
    assert [Pingreq(0), Disconnect(4)][1..] == [Disconnect(4)];
    assert c1.writers == [Writer([], Some(Pingreq(0)), [Disconnect(4)])];
    assert [] + [Attempt(Pingreq(0), false)] == [Attempt(Pingreq(0), false)];
    assert c3.writers == [Writer([Attempt(Pingreq(0), false)], None, [Disconnect(4)])];
    assert c3.wire == [0x50];
    run := GoOnWriting(c3);
    Prepend(c2, Fail(0), run);
    Prepend(c1, Send(0, 1), [Fail(0)] + run);
    Prepend(c0, Lock(0), [Send(0, 1)] + ([Fail(0)] + run));
    run := [Lock(0)] + ([Send(0, 1)] + ([Fail(0)] + run));
  }

  lemma GoOnWriting(c3: Conn) returns (run: seq<Step>)
    requires c3 == Conn([Writer([Attempt(Pingreq(0), false)], None, [Disconnect(4)])], Some(0), [], [0x50], [], Some(0))
    ensures LosesNext(c3, run)
  {
    ShortFrames();
    var c4 := Apply(c3, Unlock(0));
    var c5 := Apply(c4, Lock(0));
    var c6 := Apply(c5, Send(0, 3));
    assert c6.wire == [0x50, 0xE0, 1, 4] + [];
    SwallowsDisconnect([]);
    assert Final(c6, []) == c6;
    Prepend(c5, Send(0, 3), []);
    Prepend(c4, Lock(0), [Send(0, 3)] + []);
    Prepend(c3, Unlock(0), [Lock(0)] + ([Send(0, 3)] + []));
    run := [Unlock(0)] + ([Lock(0)] + ([Send(0, 3)] + []));
  }
}
