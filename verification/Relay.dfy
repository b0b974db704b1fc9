/** The pairing registry of the relay (backend/relay/relay_server.py), one event per step between
    suspension points. `C` names connections. */
module Relay {
  import opened Outcomes

  datatype Role = Phone | Pc

  function Other(role: Role): Role {
    if role == Phone then Pc else Phone
  }

  datatype Key = Key(code: string, role: Role)

  function Opposite(key: Key): Key {
    Key(key.code, Other(key.role))
  }

  /** `registered` is history: the registration of this connection has run. No code reads it. */
  datatype Conn<C> = Conn(key: Key, peer: Option<C>, closed: bool, registered: bool)

  /** What a client sends: the relay's own heartbeat frames, any other text, or bytes. */
  datatype Frame = Heartbeat | Text(text: string) | Binary(bytes: seq<int>)

  datatype Message<C> =
    | Paired(to: C, with: C)
    | PeerLeft(to: C, who: C)
    | Relayed(to: C, from: C, frame: Frame)
    | NoPeer(to: C)
    | Pong(to: C)

  /** `lock` is the connection whose registration holds the registry's lock. */
  datatype Registry<C> = Registry(
    conns: map<C, Conn<C>>,
    entries: map<Key, C>,
    lock: Option<C>,
    wire: seq<Message<C>>)

  /** Registration waits once under the lock, while the replaced connection is closed: `Begin` is what
      runs before that wait and `Link` what runs after it. A failed send ends in `Unregister`. */
  datatype Event<C> =
    | Accept(c: C, key: Key)
    | Begin(c: C)
    | Link(c: C)
    | Close(c: C)
    | Unregister(c: C)
    | Forward(c: C, frame: Frame)

  function Empty<C>(): Registry<C> {
    Registry(map[], map[], None, [])
  }

  function Update<C(==)>(s: Registry<C>, c: C, conn: Conn<C>): Registry<C> {
    s.(conns := s.conns[c := conn])
  }

  predicate Open<C(==)>(s: Registry<C>, c: C) {
    c in s.conns && !s.conns[c].closed
  }

  function AcceptStep<C(==)>(s: Registry<C>, c: C, key: Key): Registry<C> {
    Update(s, c, Conn(key, None, false, false))
  }

  function CloseStep<C(==)>(s: Registry<C>, c: C): Registry<C>
    requires c in s.conns
  {
    Update(s, c, s.conns[c].(closed := true))
  }

  /** The lock is taken and an older open connection under the same key is closed. */
  function BeginStep<C(==)>(s: Registry<C>, c: C): Registry<C>
    requires c in s.conns
  {
    var key := s.conns[c].key;
    var held := s.(lock := Some(c));
    if key in s.entries && s.entries[key] != c && Open(s, s.entries[key])
    then CloseStep(held, s.entries[key])
    else held
  }

  /** The open connection waiting under the opposite key. */
  function Waiting<C(==)>(s: Registry<C>, key: Key): Option<C> {
    if Opposite(key) in s.entries && Open(s, s.entries[Opposite(key)]) then Some(s.entries[Opposite(key)]) else None
  }

  function Filed<C(==)>(s: Registry<C>, c: C): Registry<C>
    requires c in s.conns
  {
    Update(s, c, s.conns[c].(registered := true)).(entries := s.entries[s.conns[c].key := c], lock := None)
  }

  function Linked<C(==)>(s: Registry<C>, c: C, p: C): Registry<C>
    requires c in s.conns && p in s.conns
  {
    var half := Update(s, c, s.conns[c].(peer := Some(p)));
    Update(half, p, half.conns[p].(peer := Some(c))).(wire := s.wire + [Paired(c, p), Paired(p, c)])
  }

  /** The new connection is filed, and linked with the open one waiting on the other side. */
  function LinkStep<C(==)>(s: Registry<C>, c: C): Registry<C>
    requires c in s.conns
  {
    var filed := Filed(s, c);
    match Waiting(filed, s.conns[c].key)
    case None => filed
    case Some(p) => Linked(filed, c, p)
  }

  function Left<C(==)>(s: Registry<C>, c: C): Registry<C>
    requires c in s.conns
  {
    var me := s.conns[c];
    Update(s, c, me.(closed := true, peer := None)).(
    entries := if me.key in s.entries && s.entries[me.key] == c then s.entries - {me.key} else s.entries)
  }

  function UnregisterStep<C(==)>(s: Registry<C>, c: C): Registry<C>
    requires c in s.conns
  {
    var gone, peer := Left(s, c), s.conns[c].peer;
    if peer.Some? && Open(gone, peer.value)
    then Update(gone, peer.value, gone.conns[peer.value].(peer := None)).(wire := s.wire + [PeerLeft(peer.value, c)])
    else gone
  }

  function ForwardStep<C(==)>(s: Registry<C>, c: C, frame: Frame): Registry<C>
    requires c in s.conns
  {
    var peer := s.conns[c].peer;
    if frame == Heartbeat then s.(wire := s.wire + [Pong(c)])
    else if peer.None? || !Open(s, peer.value) then
      if frame.Text? then s.(wire := s.wire + [NoPeer(c)]) else s
    else s.(wire := s.wire + [Relayed(peer.value, c, frame)])
  }

  /** Connections are new objects; registering and unregistering take turns on the lock; everything else
      happens at any time, in any order and for any connection, closed or not. */
  predicate Enabled<C(==)>(s: Registry<C>, e: Event<C>) {
    match e
    case Accept(c, _) => c !in s.conns
    case Begin(c) => c in s.conns && s.lock.None?
    case Link(c) => c in s.conns && s.lock == Some(c)
    case Unregister(c) => c in s.conns && s.lock.None?
    case Close(c) => c in s.conns
    case Forward(c, _) => c in s.conns
  }

  function Step<C(==)>(s: Registry<C>, e: Event<C>): Registry<C>
    requires Enabled(s, e)
  {
    match e
    case Accept(c, key) => AcceptStep(s, c, key)
    case Begin(c) => BeginStep(s, c)
    case Link(c) => LinkStep(s, c)
    case Close(c) => CloseStep(s, c)
    case Unregister(c) => UnregisterStep(s, c)
    case Forward(c, frame) => ForwardStep(s, c, frame)
  }

  ghost predicate LegalRun<C>(s: Registry<C>, events: seq<Event<C>>)
    decreases |events|
  {
    events == [] || (Enabled(s, events[0]) && LegalRun(Step(s, events[0]), events[1..]))
  }

  ghost function Run<C>(s: Registry<C>, events: seq<Event<C>>): Registry<C>
    requires LegalRun(s, events)
    decreases |events|
  {
    if events == [] then s else Run(Step(s, events[0]), events[1..])
  }
}
