/** The sidecar's connection to the voice bridge (sidecar/bridge.js): sockets come and go, and their events
    may arrive long after the client has moved on. */
module Bridge {
  import opened Outcomes
  import opened JsText

  /** A validated hello; `rest` stands for its proof, nonce and the other fields. */
  datatype Hello = Hello(sessionId: Text, deviceId: Text, roomId: Text, rest: Text)

  function SessionKey(h: Hello): Text {
    h.sessionId + [NUL] + h.deviceId + [NUL] + h.roomId
  }

  datatype Sent = SentHello(hello: Hello) | SentPayload(payload: Text)

  /** A socket remembers the generation its callbacks captured; `creator` is the hello of the startSession
      that made it. Of its life it records whether the open event was delivered, what was sent, whether the
      client called `close` on it and whether its close event came. */
  datatype Socket = Socket(
    generation: nat, creator: Hello, wasOpened: bool, sent: seq<Sent>, closeCalled: bool, isClosed: bool)

  datatype Callback = Delivered(socket: nat, message: Text) | Disconnected(socket: nat)

  /** Sockets are numbered in the order of their creation. */
  datatype Client = Client(
    sockets: seq<Socket>,
    ws: Option<nat>,
    connected: bool,
    stop: bool,
    hello: Option<Hello>,
    key: Option<Text>,
    generation: nat,
    callbacks: seq<Callback>)

  datatype Event =
    | Start(hello: Hello)
    | Clear
    | Shutdown
    | Opened(socket: nat)
    | Message(socket: nat, message: Text)
    | Closed(socket: nat)
    | Failed(socket: nat)
    | Send(payload: Text, ready: bool)

  function New(): Client {
    Client([], None, false, false, None, None, 0, [])
  }

  function Connect(c: Client, generation: nat): Client {
    if c.stop || c.hello.None? || c.ws.Some? || generation != c.generation then c
    else
      var socket := Socket(generation, c.hello.value, false, [], false, false);
      c.(sockets := c.sockets + [socket], ws := Some(|c.sockets|))
  }

  function CallClose(sockets: seq<Socket>, i: nat): seq<Socket>
    requires i < |sockets|
  {
    sockets[i := sockets[i].(closeCalled := true)]
  }

  /** `close` is called on the socket the client lets go of, if it has one. */
  function LetGo(c: Client): seq<Socket> {
    if c.ws.Some? && c.ws.value < |c.sockets| then CallClose(c.sockets, c.ws.value) else c.sockets
  }

  function Begun(c: Client, h: Hello): Client {
    c.(sockets := LetGo(c), stop := false, hello := Some(h), key := Some(SessionKey(h)), generation := c.generation + 1,
    ws := None, connected := false)
  }

  function StartStep(c: Client, h: Hello): Client {
    if c.key == Some(SessionKey(h)) then c.(stop := false)
    else Connect(Begun(c, h), Begun(c, h).generation)
  }

  function ClearStep(c: Client): Client {
    Cleared(c).(sockets := LetGo(c))
  }

  function Cleared(c: Client): Client {
    c.(hello := None, key := None, generation := c.generation + 1, ws := None, connected := false)
  }

  /** The guard of every socket callback. */
  predicate IsCurrent(c: Client, i: nat)
    requires i < |c.sockets|
  {
    c.sockets[i].generation == c.generation && c.ws == Some(i)
  }

  function OpenStep(c: Client, i: nat): Client
    requires i < |c.sockets|
  {
    var seen := c.sockets[i].(wasOpened := true);
    if !IsCurrent(c, i) || c.hello.None? then c.(sockets := CallClose(c.sockets[i := seen], i))
    else c.(sockets := c.sockets[i := seen.(sent := seen.sent + [SentHello(c.hello.value)])], connected := true)
  }

  function MessageStep(c: Client, i: nat, m: Text): Client
    requires i < |c.sockets|
  {
    if IsCurrent(c, i) then c.(callbacks := c.callbacks + [Delivered(i, m)]) else c
  }

  function CloseStep(c: Client, i: nat): Client
    requires i < |c.sockets|
  {
    if IsCurrent(c, i) then Ended(Gone(c, i), i) else Gone(c, i)
  }

  function Gone(c: Client, i: nat): Client
    requires i < |c.sockets|
  {
    c.(sockets := c.sockets[i := c.sockets[i].(isClosed := true)])
  }

  function Ended(c: Client, i: nat): Client {
    Cleared(c).(callbacks := if c.hello.Some? && !c.stop then c.callbacks + [Disconnected(i)] else c.callbacks)
  }

  function SendStep(c: Client, payload: Text, ready: bool): Client
    requires c.ws.Some? ==> c.ws.value < |c.sockets|
  {
    if c.ws.None? || !ready || c.hello.None? then c
    else
      var i := c.ws.value;
      c.(sockets := c.sockets[i := c.sockets[i].(sent := c.sockets[i].sent + [SentPayload(payload)])])
  }

  /** What the WebSocket interface promises: events belong to sockets that exist, the open event comes at
      most once, and a socket is ready only after it. Messages and closes may come at any time. */
  predicate Enabled(c: Client, e: Event) {
    match e
    case Start(_) => true
    case Clear => true
    case Shutdown => true
    case Opened(i) => i < |c.sockets| && !c.sockets[i].wasOpened
    case Message(i, _) => i < |c.sockets|
    case Closed(i) => i < |c.sockets|
    case Failed(i) => i < |c.sockets|
    case Send(_, ready) => c.ws.Some? ==> c.ws.value < |c.sockets| && (ready ==> c.sockets[c.ws.value].wasOpened)
  }

  function Step(c: Client, e: Event): Client
    requires Enabled(c, e)
  {
    match e
    case Start(h) => StartStep(c, h)
    case Clear => ClearStep(c)
    case Shutdown => ClearStep(c.(stop := true))
    case Opened(i) => OpenStep(c, i)
    case Message(i, m) => MessageStep(c, i, m)
    case Closed(i) => CloseStep(c, i)
    case Failed(i) => c.(sockets := CallClose(c.sockets, i))
    case Send(p, ready) => SendStep(c, p, ready)
  }

  ghost predicate LegalRun(c: Client, events: seq<Event>)
    decreases |events|
  {
    events == [] || (Enabled(c, events[0]) && LegalRun(Step(c, events[0]), events[1..]))
  }

  ghost function Run(c: Client, events: seq<Event>): Client
    requires LegalRun(c, events)
    decreases |events|
  {
    if events == [] then c else Run(Step(c, events[0]), events[1..])
  }
}
