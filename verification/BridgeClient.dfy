/** The client object of sidecar/bridge.js and its socket callbacks. */
module BridgeClient {
  import opened Outcomes
  import opened JsText
  import opened Bridge

  class WebSocket {
    const generation: nat
    ghost const id: nat
    ghost const creator: Hello
    var wasOpened: bool
    var sent: seq<Sent>
    var closeCalled: bool
    ghost var isClosed: bool

    constructor (generation: nat, ghost id: nat, ghost creator: Hello)
      ensures this.generation == generation && this.id == id
      ensures Value() == Socket(generation, creator, false, [], false, false)
    {
      this.generation := generation;
      this.id := id;
      this.creator := creator;
      wasOpened, sent, closeCalled, isClosed := false, [], false, false;
    }

    ghost function Value(): Socket
      reads this
    {
      Socket(generation, creator, wasOpened, sent, closeCalled, isClosed)
    }

    method Send(s: Sent)
      modifies this`sent
      ensures sent == old(sent) + [s]
    {
      sent := sent + [s];
    }

    method Close()
      modifies this`closeCalled
      ensures closeCalled
    {
      closeCalled := true;
    }
  }

  class BridgeClient {
    var ws: WebSocket?
    var connected: bool
    var stop: bool
    var activeHello: Option<Hello>
    var sessionKey: Option<Text>
    var generation: nat
    ghost var sockets: seq<WebSocket>
    ghost var callbacks: seq<Callback>

    ghost predicate Valid()
      reads this, sockets
    {
      && (forall i :: 0 <= i < |sockets| ==> sockets[i].id == i)
      && (ws != null ==> ws.id < |sockets| && sockets[ws.id] == ws)
    }

    ghost function Snapshot(): Client
      reads this, sockets, ws
    {
      Client(seq(|sockets|, i requires 0 <= i < |sockets| reads this, sockets => sockets[i].Value()),
             if ws == null then None else Some(ws.id), connected, stop, activeHello, sessionKey, generation, callbacks)
    }

    lemma SnapshotIs(c: Client)
      requires |c.sockets| == |sockets| && forall i :: 0 <= i < |sockets| ==> c.sockets[i] == sockets[i].Value()
      requires c.ws == (if ws == null then None else Some(ws.id)) && c.connected == connected && c.stop == stop
      requires c.hello == activeHello && c.key == sessionKey && c.generation == generation && c.callbacks == callbacks
      ensures Snapshot() == c
    {
      assert c.sockets == Snapshot().sockets;
    }

    constructor ()
      ensures Valid() && sockets == [] && Snapshot() == New()
    {
      ws, connected, stop, activeHello, sessionKey, generation := null, false, false, None, None, 0;
      sockets, callbacks := [], [];
    }

    method StartSession(hello: Hello)
      requires Valid()
      modifies this, ws
      ensures Valid() && Snapshot() == StartStep(old(Snapshot()), hello)
      ensures old(sockets) <= sockets && forall i :: |old(sockets)| <= i < |sockets| ==> fresh(sockets[i])
    {
      stop := false;
      if sessionKey == Some(SessionKey(hello)) {
        SnapshotIs(StartStep(old(Snapshot()), hello));
        return;
      }
      activeHello := Some(hello);
      sessionKey := Some(SessionKey(hello));
      generation := generation + 1;
      var stale := ws;
      ws := null;
      connected := false;
      if stale != null { stale.Close(); }
      SnapshotIs(Begun(old(Snapshot()), hello));
      Connect(generation);
    }

    method Connect(generation: nat)
      requires Valid()
      modifies this
      ensures Valid() && Snapshot() == Bridge.Connect(old(Snapshot()), generation)
      ensures old(sockets) <= sockets && forall i :: |old(sockets)| <= i < |sockets| ==> fresh(sockets[i])
    {
      if stop || activeHello.None? || ws != null || generation != this.generation { return; }
      var socket := new WebSocket(generation, |sockets|, activeHello.value);
      ws := socket;
      sockets := sockets + [socket];
      SnapshotIs(Bridge.Connect(old(Snapshot()), generation));
    }

    method ClearSession()
      requires Valid()
      modifies this, ws
      ensures Valid() && Snapshot() == ClearStep(old(Snapshot())) && sockets == old(sockets)
    {
      activeHello := None;
      sessionKey := None;
      generation := generation + 1;
      var socket := ws;
      ws := null;
      connected := false;
      if socket != null { socket.Close(); }
      SnapshotIs(ClearStep(old(Snapshot())));
    }

    method Close()
      requires Valid()
      modifies this, ws
      ensures Valid() && Snapshot() == ClearStep(old(Snapshot()).(stop := true)) && sockets == old(sockets)
    {
      stop := true;
      SnapshotIs(old(Snapshot()).(stop := true));
      ClearSession();
    }

    method OnOpen(socket: WebSocket)
      requires Valid() && socket in sockets && !socket.wasOpened
      modifies this`connected, socket
      ensures Valid() && Snapshot() == OpenStep(old(Snapshot()), socket.id)
    {
      socket.wasOpened := true;
      if socket.generation != generation || ws != socket || activeHello.None? {
        socket.Close();
        SnapshotIs(OpenStep(old(Snapshot()), socket.id));
        return;
      }
      connected := true;
      socket.Send(SentHello(activeHello.value));
      SnapshotIs(OpenStep(old(Snapshot()), socket.id));
    }

    method OnMessage(socket: WebSocket, message: Text)
      requires Valid() && socket in sockets
      modifies this`callbacks
      ensures Valid() && Snapshot() == MessageStep(old(Snapshot()), socket.id, message)
    {
      if socket.generation == generation && ws == socket {
        callbacks := callbacks + [Delivered(socket.id, message)];
      }
      SnapshotIs(MessageStep(old(Snapshot()), socket.id, message));
    }

    method OnClose(socket: WebSocket)
      requires Valid() && socket in sockets
      modifies this, socket`isClosed
      ensures Valid() && Snapshot() == CloseStep(old(Snapshot()), socket.id) && sockets == old(sockets)
    {
      socket.isClosed := true;
      SnapshotIs(Gone(old(Snapshot()), socket.id));
      if socket.generation != generation || ws != socket { return; }
      EndSession(socket);
    }

    /** The current socket is gone, and its session with it. */
    method EndSession(socket: WebSocket)
      requires Valid() && ws == socket
      modifies this
      ensures Valid() && Snapshot() == Ended(old(Snapshot()), socket.id) && sockets == old(sockets)
    {
      ws := null;
      connected := false;
      var hadSession := activeHello != None;
      activeHello := None;
      sessionKey := None;
      generation := generation + 1;
      if hadSession && !stop {
        callbacks := callbacks + [Disconnected(socket.id)];
      }
      SnapshotIs(Ended(old(Snapshot()), socket.id));
    }

    method OnError(socket: WebSocket)
      requires Valid() && socket in sockets
      modifies socket`closeCalled
      ensures Valid() && Snapshot() == Step(old(Snapshot()), Failed(socket.id))
    {
      socket.Close();
      SnapshotIs(Step(old(Snapshot()), Failed(socket.id)));
    }

    /** sendUpAudio, sendPeerState and sendCtrl share this guard; `ready` is the socket's OPEN state. */
    method SendWhenReady(payload: Text, ready: bool) returns (ok: bool)
      requires Valid()
      modifies if ws == null then {} else {ws}
      ensures Valid() && Snapshot() == SendStep(old(Snapshot()), payload, ready)
      ensures ok <==> old(ws) != null && ready && activeHello.Some?
    {
      if ws == null || !ready || activeHello.None? { return false; }
      ws.Send(SentPayload(payload));
      SnapshotIs(SendStep(old(Snapshot()), payload, ready));
      ok := true;
    }
  }
}
