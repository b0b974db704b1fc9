/** The relay's registry as the server keeps it: connection objects linked to each other and filed in a
    dictionary, updated in place. */
module RelayServer {
  import opened Outcomes
  import opened Relay

  class RelayConn {
    const key: Key
    var peer: RelayConn?
    var closed: bool
    ghost var registered: bool

    constructor (key: Key)
      ensures this.key == key && peer == null && !closed && !registered
    {
      this.key := key;
      peer := null;
      closed := false;
      registered := false;
    }

    ghost function Value(): Conn<RelayConn>
      reads this
    {
      var link: Option<RelayConn> := if peer == null then None else var p: RelayConn := peer; Some(p);
      Conn(key, link, closed, registered)
    }
  }

  class RelayServer {
    var entries: map<Key, RelayConn>
    ghost var all: set<RelayConn>
    ghost var lock: Option<RelayConn>
    ghost var wire: seq<Message<RelayConn>>

    /** The dictionary and every peer link stay within the known connections. */
    ghost predicate Valid()
      reads this, all
    {
      && (forall key :: key in entries ==> entries[key] in all && entries[key].key == key)
      && forall c :: c in all ==> c.peer == null || c.peer in all
    }

    ghost function Snapshot(): Registry<RelayConn>
      reads this, all
    {
      Registry(map c | c in all :: c.Value(), entries, lock, wire)
    }

    constructor ()
      ensures Valid() && all == {} && Snapshot() == Empty()
    {
      entries, all, lock, wire := map[], {}, None, [];
    }

    method Accept(key: Key) returns (c: RelayConn)
      requires Valid()
      modifies this`all
      ensures Valid() && fresh(c) && all == old(all) + {c}
      ensures Snapshot() == AcceptStep(old(Snapshot()), c, key)
    {
      c := new RelayConn(key);
      all := all + {c};
    }

    method SafeClose(c: RelayConn)
      requires Valid() && c in all
      modifies c`closed
      ensures Valid() && Snapshot() == CloseStep(old(Snapshot()), c)
    {
      c.closed := true;
    }

    /** register, up to the wait for the replaced connection's socket to close. */
    method BeginRegister(c: RelayConn)
      requires Valid() && Enabled(Snapshot(), Begin(c))
      modifies this`lock, all
      ensures Valid() && all == old(all) && Snapshot() == BeginStep(old(Snapshot()), c)
    {
      lock := Some(c);
      if c.key in entries {
        var replaced := entries[c.key];
        if replaced != c && !replaced.closed {
          SafeClose(replaced);
        }
      }
    }

    lemma SnapshotIs(r: Registry<RelayConn>)
      requires r.entries == entries && r.lock == lock && r.wire == wire && r.conns.Keys == all
      requires forall c :: c in all ==> r.conns[c] == c.Value()
      ensures Snapshot() == r
    {
      assert r.conns == map c | c in all :: c.Value();
    }

    /** register, after that wait: the caller learns whom it was paired with. */
    method FinishRegister(c: RelayConn) returns (peer: RelayConn?)
      requires Valid() && Enabled(Snapshot(), Link(c))
      modifies this, all
      ensures Valid() && all == old(all) && Snapshot() == LinkStep(old(Snapshot()), c)
      ensures peer != null ==> peer == c.peer && peer.peer == c && peer.key == Opposite(c.key) && !peer.closed
      ensures peer == null ==> wire == old(wire) && unchanged(all - {c})
    {
      ghost var before := Snapshot();
      File(c);
      ghost var filed := Snapshot();
      peer := null;
      var peerKey := Key(c.key.code, if c.key.role == Phone then Pc else Phone);
      if peerKey in entries {
        var waiting := entries[peerKey];
        if !waiting.closed {
          LinkBoth(c, waiting);
          peer := waiting;
        }
      }
    }

    method File(c: RelayConn)
      requires Valid() && c in all
      modifies this`entries, this`lock, c`registered
      ensures Valid() && Snapshot() == Filed(old(Snapshot()), c)
    {
      entries := entries[c.key := c];
      c.registered := true;
      lock := None;
      SnapshotIs(Filed(old(Snapshot()), c));
    }

    method LinkBoth(c: RelayConn, waiting: RelayConn)
      requires Valid() && c in all && waiting in all && c != waiting
      modifies this`wire, c`peer, waiting`peer
      ensures Valid() && Snapshot() == Linked(old(Snapshot()), c, waiting)
    {
      c.peer := waiting;
      waiting.peer := c;
      wire := wire + [Paired(c, waiting), Paired(waiting, c)];
      SnapshotIs(Linked(old(Snapshot()), c, waiting));
    }

    method Unregister(c: RelayConn)
      requires Valid() && Enabled(Snapshot(), Event.Unregister(c))
      modifies this, all
      ensures Valid() && all == old(all) && Snapshot() == UnregisterStep(old(Snapshot()), c)
    {
      var peer := c.peer;
      Leave(c);
      if peer != null && !peer.closed {
        peer.peer := null;
        wire := wire + [PeerLeft(peer, c)];
      }
      SnapshotIs(UnregisterStep(old(Snapshot()), c));
    }

    method Leave(c: RelayConn)
      requires Valid() && c in all
      modifies this`entries, c`closed, c`peer
      ensures Valid() && c.closed && c.peer == null && Snapshot() == Left(old(Snapshot()), c)
    {
      if c.key in entries && entries[c.key] == c {
        entries := entries - {c.key};
      }
      c.closed := true;
      c.peer := null;
      SnapshotIs(Left(old(Snapshot()), c));
    }

    method Forward(c: RelayConn, frame: Frame)
      requires Valid() && c in all
      modifies this`wire
      ensures Valid() && Snapshot() == ForwardStep(old(Snapshot()), c, frame)
    {
      if frame == Heartbeat {
        wire := wire + [Pong(c)];
        return;
      }
      var peer := c.peer;
      if peer == null || peer.closed {
        if frame.Text? { wire := wire + [NoPeer(c)]; }
        return;
      }
      wire := wire + [Relayed(peer, c, frame)];
    }
  }
}
