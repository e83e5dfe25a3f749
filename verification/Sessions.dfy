/**
 The server's table of device connections (server/store.go) and one connection in it
 (server/conn.go).
 */
module Sessions {
  import opened Wrappers
  import opened Bits
  import opened Codec
  import opened Packets

  type DeviceId = string

  /** Connections are numbered in the order they are accepted. */
  type ConnId = nat

  /** Delete the entry for a device if and only if it is this connection. */
  function RemoveFrom(conns: map<DeviceId, ConnId>, d: DeviceId, c: ConnId): map<DeviceId, ConnId> {
    if d in conns && conns[d] == c then conns - {d} else conns
  }

  class ConnectionStore {
    var conns: map<DeviceId, ConnId>

    constructor ()
      ensures conns == map[]
    {
      conns := map[];
    }

    method Register(d: DeviceId, c: ConnId) returns (prev: Option<ConnId>)
      modifies this
      ensures conns == old(conns)[d := c]
      ensures prev == if d in old(conns) then Some(old(conns)[d]) else None
    {
      prev := if d in conns then Some(conns[d]) else None;
      conns := conns[d := c];
    }

    method Get(d: DeviceId) returns (c: Option<ConnId>)
      ensures c.Some? <==> d in conns
      ensures c.Some? ==> c.value == conns[d]
    {
      c := if d in conns then Some(conns[d]) else None;
    }

    method Remove(d: DeviceId, c: ConnId) returns (removed: bool)
      modifies this
      ensures conns == RemoveFrom(old(conns), d, c)
      ensures removed <==> conns != old(conns)
    {
      removed := d in conns && conns[d] == c;
      if removed {
        conns := conns - {d};
        assert d in old(conns) && d !in conns;
      }
    }

    /** Every registered connection, once per device, in some order. */
    method All() returns (all: seq<ConnId>)
      ensures |all| == |conns|
      ensures forall c :: c in all <==> exists d :: d in conns && conns[d] == c
    {
      all := [];
      var left := conns;
      while left != map[]
        invariant |all| + |left| == |conns|
        invariant left.Keys <= conns.Keys && forall d :: d in left ==> left[d] == conns[d]
        invariant forall c :: c in all <==> exists d :: d in conns && d !in left && conns[d] == c
        decreases |left|
      {
        var d :| d in left.Keys;
        ghost var before, seen := left, all;
        all := all + [left[d]];
        left := left - {d};
        assert left.Keys == before.Keys - {d};
        forall c
          ensures c in all <==> exists e :: e in conns && e !in left && conns[e] == c
        {
          if c in all && c !in seen {
            assert d in conns && d !in left && conns[d] == c;
          }
        }
      }
    }
  }

  /** One device connection: frames go out only while it is active, and it is closed once. */
  class DeviceConnection {
    const deviceID: DeviceId
    const conn: Wire
    var active: bool
    var closes: nat

    constructor (conn: Wire, deviceID: DeviceId)
      ensures this.conn == conn && this.deviceID == deviceID && active && closes == 0
    {
      this.conn, this.deviceID, active, closes := conn, deviceID, true, 0;
    }

    method Write(payload: seq<byte>) returns (ok: bool)
      modifies conn
      ensures ok == active
      ensures conn.writes == if active then old(conn.writes) + [Encode(Push(0, payload))] else old(conn.writes)
    {
      if !active {
        return false;
      }
      var pp := new PushPacket(0);
      pp.payload := payload;
      pp.Write(conn);
      return true;
    }

    method SendDisconnect(reason: byte)
      modifies conn
      ensures conn.writes == if active then old(conn.writes) + [Encode(Disconnect(reason))] else old(conn.writes)
    {
      if !active {
        return;
      }
      var dp := new DisconnectPacket(0);
      dp.returnCode := reason;
      dp.Write(conn);
    }

    /** Compare-and-swap on `active`: of any number of closes, one closes the socket. */
    method Close()
      modifies this
      ensures !active && closes == old(closes) + (if old(active) then 1 else 0)
    {
      if active {
        active := false;
        closes := closes + 1;
      }
    }
  }
}
