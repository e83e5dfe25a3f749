/**
 Reading a byte stream that arrives in pieces: `wsConn.Read` (server/wsconn.go) and
 `wsStreamConn.Read` (client/net.go), which buffer one WebSocket message at a time,
 and `io.ReadFull` on top of them. The end of the messages stands for the error that
 ends a connection.
 */
module Stream {
  import opened Bits

  datatype ReadError =
    | EOF
    | UnexpectedEOF
    | NonZeroFlags(flags: nat)
    | UnsupportedType(messageType: nat)
    | NegativePayload

  datatype Result<+T> = Ok(value: T) | Err(error: ReadError) {
    predicate IsFailure() { Err? }
    function PropagateFailure<U>(): Result<U>
      requires Err?
    { Err(error) }
    function Extract(): T
      requires Ok?
    { value }
  }

  /** `io.ReadFull` on a flat stream: the bytes asked for and the rest, or how the stream fell short. */
  function Take(s: seq<byte>, n: nat): Result<(seq<byte>, seq<byte>)> {
    if n <= |s| then Ok((s[..n], s[n..]))
    else Err(if s == [] then EOF else UnexpectedEOF)
  }

  lemma TakeExact(s: seq<byte>, head: seq<byte>, rest: seq<byte>)
    requires s == head + rest
    ensures Take(s, |head|) == Ok((head, rest))
  {
  }

  lemma TakeShort(s: seq<byte>, n: nat, data: seq<byte>)
    requires s == data + [] && |data| < n
    ensures Take(s, n) == Err(if data == [] then EOF else UnexpectedEOF)
  {
  }

  function Flatten(messages: seq<seq<byte>>): seq<byte> {
    if messages == [] then [] else messages[0] + Flatten(messages[1..])
  }

  /** The adapter's state: the rest of the current message and the messages not yet received. */
  datatype Pending = Pending(buf: seq<byte>, messages: seq<seq<byte>>)

  function Remaining(c: Pending): seq<byte> {
    c.buf + Flatten(c.messages)
  }

  /** Receive messages until one is not empty. */
  function Refill(c: Pending): Pending
    decreases |c.messages|
  {
    if c.buf != [] || c.messages == [] then c
    else Refill(Pending(c.messages[0], c.messages[1..]))
  }

  /** One `Read` into a slice of `size` bytes. */
  function ReadOnce(c: Pending, size: nat): (Pending, Result<seq<byte>>) {
    var c' := Refill(c);
    if c'.buf == [] then (c', Err(EOF))
    else
      var n := if size < |c'.buf| then size else |c'.buf|;
      (c'.(buf := c'.buf[n..]), Ok(c'.buf[..n]))
  }

  lemma {:induction false} RefillKeeps(c: Pending)
    ensures Remaining(Refill(c)) == Remaining(c)
    ensures Refill(c).buf == [] ==> Remaining(c) == []
    decreases |c.messages|
  {
    if c.buf == [] && c.messages != [] {
      RefillKeeps(Pending(c.messages[0], c.messages[1..]));
    }
  }

  /** The message a `Read` is served from: what is left of the current one, else the next that is not empty. */
  function Current(c: Pending): seq<byte>
    decreases |c.messages|
  {
    if c.buf != [] || c.messages == [] then c.buf else Current(Pending(c.messages[0], c.messages[1..]))
  }

  lemma {:induction false} RefillIsCurrent(c: Pending)
    ensures Refill(c).buf == Current(c)
    decreases |c.messages|
  {
    if c.buf == [] && c.messages != [] {
      RefillIsCurrent(Pending(c.messages[0], c.messages[1..]));
    }
  }

  /** A `Read` never goes past the end of a message, and short of that it fills the slice. */
  lemma ReadOnceFills(c: Pending, size: nat)
    ensures var r := ReadOnce(c, size).1;
            r.Ok? ==> |r.value| <= size && r.value <= Current(c) && (|r.value| == size || r.value == Current(c))
  {
    RefillIsCurrent(c);
  }

  /** A `Read` delivers the next bytes of the stream, some if it asked for some, and fails only at its end. */
  lemma ReadOnceConserves(c: Pending, size: nat)
    ensures var (c', r) := ReadOnce(c, size);
            match r
            case Ok(bytes) =>
              bytes + Remaining(c') == Remaining(c) && |bytes| <= size && (size > 0 ==> bytes != [])
            case Err(e) => e == EOF && Remaining(c) == [] == Remaining(c')
  {
    RefillKeeps(c);
    var c1 := Refill(c);
    if c1.buf != [] {
      var n := if size < |c1.buf| then size else |c1.buf|;
      assert c1.buf == c1.buf[..n] + c1.buf[n..];
      assert c1.buf[..n] + (c1.buf[n..] + Flatten(c1.messages)) == Remaining(c1);
    }
  }

  /** All bytes delivered by a sequence of reads of the given sizes, and the state after them. */
  function ReadMany(c: Pending, sizes: seq<nat>): (Pending, seq<byte>)
    decreases |sizes|
  {
    if sizes == [] then (c, [])
    else
      var (c1, r) := ReadOnce(c, sizes[0]);
      var (c2, bytes) := ReadMany(c1, sizes[1..]);
      (c2, (if r.Ok? then r.value else []) + bytes)
  }

  /**
   However a stream is cut into messages and whatever sizes it is read in, the bytes
   read, the buffer and the unread messages are together the original stream.
   */
  lemma {:induction false} ReadsConserveStream(c: Pending, sizes: seq<nat>)
    ensures var (c', bytes) := ReadMany(c, sizes);
            bytes + Remaining(c') == Remaining(c)
    decreases |sizes|
  {
    if sizes != [] {
      ReadOnceConserves(c, sizes[0]);
      var (c1, r) := ReadOnce(c, sizes[0]);
      ReadsConserveStream(c1, sizes[1..]);
    }
  }

  /** The adapter itself. */
  class StreamConn {
    var buf: seq<byte>
    var messages: seq<seq<byte>>

    ghost function View(): Pending
      reads this
    {
      Pending(buf, messages)
    }

    ghost function Bytes(): seq<byte>
      reads this
    {
      Remaining(View())
    }

    constructor (messages: seq<seq<byte>>)
      ensures View() == Pending([], messages)
    {
      buf := [];
      this.messages := messages;
    }

    method Read(size: nat) returns (r: Result<seq<byte>>)
      modifies this
      ensures (View(), r) == ReadOnce(old(View()), size)
    {
      while |buf| == 0
        invariant Refill(View()) == Refill(old(View()))
        decreases |messages| + (if buf == [] then 1 else 0)
      {
        if messages == [] {
          return Err(EOF);
        }
        buf, messages := messages[0], messages[1..];
      }
      var n := if size < |buf| then size else |buf|;
      var data := buf[..n];
      buf := buf[n..];
      return Ok(data);
    }

    /** `io.ReadFull`: read until the slice is full or the stream ends. */
    method ReadFull(n: nat) returns (r: Result<seq<byte>>)
      modifies this
      ensures match Take(old(Bytes()), n)
              case Ok((head, rest)) => r == Ok(head) && Bytes() == rest
              case Err(e) => r == Err(e) && Bytes() == []
    {
      var data := [];
      while |data| < n
        invariant |data| <= n
        invariant data + Bytes() == old(Bytes())
        decreases n - |data|
      {
        ghost var before := View();
        ReadOnceConserves(before, n - |data|);
        var got := Read(n - |data|);
        assert (View(), got) == ReadOnce(before, n - |data|);
        if got.Err? {
          TakeShort(old(Bytes()), n, data);
          return Err(if data == [] then EOF else UnexpectedEOF);
        }
        assert data + Remaining(before) == (data + got.value) + Bytes();
        data := data + got.value;
      }
      TakeExact(old(Bytes()), data, Bytes());
      r := Ok(data);
    }

    /** Reading into a slice of one byte. */
    method ReadByte() returns (r: Result<byte>)
      modifies this
      ensures r.Ok? <==> |old(Bytes())| > 0
      ensures r.Ok? ==> r.value == old(Bytes())[0] && Bytes() == old(Bytes())[1..]
      ensures r.Err? ==> r == Err(EOF) && Bytes() == []
    {
      var b := ReadFull(1);
      r := if b.Ok? then Ok(b.value[0]) else Err(b.error);
    }
  }
}
