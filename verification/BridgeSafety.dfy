/** Stale sockets are harmless: what holds over every order of client calls and socket events. */
module BridgeSafety {
  import opened Outcomes
  import opened JsText
  import opened Bridge

  // ---------- the invariant ----------

  /** Nothing was sent, or the creator's hello was sent first and only payloads after it. */
  ghost predicate HelloFirst(s: Socket) {
    s.sent == [] ||
    (s.sent[0] == SentHello(s.creator) && forall k :: 0 < k < |s.sent| ==> s.sent[k].SentPayload?)
  }

  ghost predicate SocketOk(c: Client, i: nat)
    requires i < |c.sockets|
  {
    && HelloFirst(c.sockets[i]) && c.sockets[i].generation <= c.generation
    && (c.sockets[i].sent != [] ==> c.sockets[i].wasOpened)
    && (c.ws != Some(i) ==> c.sockets[i].closeCalled || c.sockets[i].isClosed)
  }

  /** The current socket belongs to the session in force, which greets as soon as it opens. */
  ghost predicate CurrentOk(c: Client) {
    && (c.ws.Some? ==>
      var i := c.ws.value;
      && i < |c.sockets| && c.sockets[i].generation == c.generation && !c.stop
      && c.hello == Some(c.sockets[i].creator) && c.key == Some(SessionKey(c.sockets[i].creator))
      && (c.sockets[i].wasOpened ==> c.sockets[i].sent != [])
      && (c.connected ==> c.sockets[i].wasOpened))
    && (c.ws.None? ==> c.hello.None? && c.key.None? && !c.connected)
  }

  ghost predicate GenerationsGrow(c: Client) {
    forall i, j :: 0 <= i < j < |c.sockets| ==> c.sockets[i].generation < c.sockets[j].generation
  }

  ghost predicate Core(c: Client) {
    (forall i :: 0 <= i < |c.sockets| ==> SocketOk(c, i)) && CurrentOk(c) && GenerationsGrow(c)
  }

  ghost predicate Inv(c: Client) {
    Core(c) && DisconnectsOk(c)
  }

  /** A socket reports a disconnect at most once, and never again while current. */
  ghost predicate DisconnectsOk(c: Client) {
    && (forall i :: 0 <= i < |c.sockets| ==> DisconnectOk(c, i))
    && (forall k :: 0 <= k < |c.callbacks| ==> c.callbacks[k].socket < |c.sockets|)
  }

  ghost predicate DisconnectOk(c: Client, i: nat) {
    Disconnects(c.callbacks, i) + (if c.ws == Some(i) then 1 else 0) <= 1
  }

  function Disconnects(callbacks: seq<Callback>, i: nat): nat {
    if callbacks == [] then 0
    else (if callbacks[0] == Disconnected(i) then 1 else 0) + Disconnects(callbacks[1..], i)
  }

  lemma {:induction false} DisconnectsAppend(callbacks: seq<Callback>, m: Callback, i: nat)
    ensures Disconnects(callbacks + [m], i) == Disconnects(callbacks, i) + (if m == Disconnected(i) then 1 else 0)
  {
    if callbacks == [] {
      assert callbacks + [m] == [m];
    } else {
      DisconnectsAppend(callbacks[1..], m, i);
      assert (callbacks + [m])[1..] == callbacks[1..] + [m];
    }
  }

  lemma {:induction false} NeverMentioned(callbacks: seq<Callback>, i: nat)
    requires forall k :: 0 <= k < |callbacks| ==> callbacks[k].socket != i
    ensures Disconnects(callbacks, i) == 0
  {
    if callbacks != [] {
      assert callbacks[0].socket != i;
      assert forall k :: 0 <= k < |callbacks[1..]| ==> callbacks[1..][k] == callbacks[k + 1];
      NeverMentioned(callbacks[1..], i);
    }
  }

  /** A socket changes by one of its own events only. */
  lemma OneSocketChanges(c: Client, d: Client, i: nat)
    requires Core(c) && i < |c.sockets| && |d.sockets| == |c.sockets| && d.generation >= c.generation
    requires forall j :: 0 <= j < |c.sockets| && j != i ==> d.sockets[j] == c.sockets[j]
    requires d.sockets[i].generation == c.sockets[i].generation && SocketOk(d, i)
    requires forall j :: 0 <= j < |c.sockets| && j != i ==> c.ws == Some(j) || d.ws != Some(j)
    requires forall j :: 0 <= j < |c.sockets| && j != i ==> c.ws == Some(j) ==> d.ws == Some(j)
    ensures (forall j :: 0 <= j < |d.sockets| ==> SocketOk(d, j)) && GenerationsGrow(d)
  {
    forall j | 0 <= j < |d.sockets| ensures SocketOk(d, j) { assert SocketOk(c, j); }
    forall j, k | 0 <= j < k < |d.sockets| ensures d.sockets[j].generation < d.sockets[k].generation {
      assert c.sockets[j].generation < c.sockets[k].generation;
    }
  }

  lemma StartKeeps(c: Client, h: Hello)
    requires Core(c)
    ensures Core(StartStep(c, h))
  {
    if c.key == Some(SessionKey(h)) {
      SocketsOkAfter(c, c.(stop := false));
    } else {
      var b := Begun(c, h);
      LettingGoKeeps(c, b);
      var d := StartStep(c, h);
      forall i | 0 <= i < |d.sockets| ensures SocketOk(d, i) {
        if i < |c.sockets| { assert SocketOk(b, i); }
      }
    }
  }

  lemma SocketsOkAfter(c: Client, d: Client)
    requires Core(c) && d.sockets == c.sockets && d.ws == c.ws && d.generation == c.generation
    ensures (forall j :: 0 <= j < |d.sockets| ==> SocketOk(d, j)) && GenerationsGrow(d)
  {
    forall j | 0 <= j < |d.sockets| ensures SocketOk(d, j) { assert SocketOk(c, j); }
  }

  /** What replacing and clearing have in common. */
  lemma LettingGoKeeps(c: Client, d: Client)
    requires Core(c) && d.sockets == LetGo(c) && d.ws == None && d.generation == c.generation + 1
    ensures |d.sockets| == |c.sockets| && (forall j :: 0 <= j < |d.sockets| ==> SocketOk(d, j)) && GenerationsGrow(d)
    ensures forall j :: 0 <= j < |d.sockets| ==> d.sockets[j].generation < d.generation
  {
    forall j | 0 <= j < |d.sockets| ensures SocketOk(d, j) && d.sockets[j].generation < d.generation {
      assert SocketOk(c, j);
    }
    forall j, k | 0 <= j < k < |d.sockets| ensures d.sockets[j].generation < d.sockets[k].generation {
      assert c.sockets[j].generation < c.sockets[k].generation;
    }
  }

  lemma ClearKeeps(c: Client, stop: bool)
    requires Core(c)
    ensures Core(ClearStep(c.(stop := stop)))
  {
    LettingGoKeeps(c, ClearStep(c.(stop := stop)));
  }

  lemma OpenKeeps(c: Client, i: nat)
    requires Core(c) && i < |c.sockets| && !c.sockets[i].wasOpened
    ensures Core(OpenStep(c, i))
  {
    assert SocketOk(c, i);
    OneSocketChanges(c, OpenStep(c, i), i);
  }

  lemma CloseKeeps(c: Client, i: nat)
    requires Core(c) && i < |c.sockets|
    ensures Core(CloseStep(c, i))
  {
    assert SocketOk(c, i);
    OneSocketChanges(c, CloseStep(c, i), i);
  }

  lemma FailKeeps(c: Client, i: nat)
    requires Core(c) && i < |c.sockets|
    ensures Core(c.(sockets := CallClose(c.sockets, i)))
  {
    assert SocketOk(c, i);
    OneSocketChanges(c, c.(sockets := CallClose(c.sockets, i)), i);
  }

  lemma SendKeeps(c: Client, payload: Text, ready: bool)
    requires Core(c) && Enabled(c, Send(payload, ready))
    ensures Core(SendStep(c, payload, ready))
  {
    if c.ws.Some? && ready && c.hello.Some? {
      assert SocketOk(c, c.ws.value);
      OneSocketChanges(c, SendStep(c, payload, ready), c.ws.value);
    }
  }

  lemma CoreStays(c: Client, e: Event)
    requires Core(c) && Enabled(c, e)
    ensures Core(Step(c, e))
  {
    hide StartStep, ClearStep, OpenStep, CloseStep, SendStep, CallClose;
    match e
    case Start(h) => StartKeeps(c, h);
    case Clear => ClearKeeps(c, c.stop);
    case Shutdown => ClearKeeps(c, true);
    case Opened(i) => OpenKeeps(c, i);
    case Message(i, m) => SocketsOkAfter(c, MessageStep(c, i, m));
    case Closed(i) => CloseKeeps(c, i);
    case Failed(i) => FailKeeps(c, i);
    case Send(p, ready) => SendKeeps(c, p, ready);
  }

  lemma CallbacksStay(c: Client, e: Event)
    requires Inv(c) && Enabled(c, e)
    ensures forall k :: 0 <= k < |Step(c, e).callbacks| ==> Step(c, e).callbacks[k].socket < |Step(c, e).sockets|
  {
  }

  lemma DisconnectsStay(c: Client, e: Event, i: nat)
    requires Inv(c) && Enabled(c, e) && i < |Step(c, e).sockets|
    ensures DisconnectOk(Step(c, e), i)
  {
    if i < |c.sockets| { assert DisconnectOk(c, i); } else { NeverMentioned(c.callbacks, i); }
    if e.Message? { DisconnectsAppend(c.callbacks, Delivered(e.socket, e.message), i); }
    if e.Closed? { DisconnectsAppend(c.callbacks, Disconnected(e.socket), i); }
  }

  lemma StepKeeps(c: Client, e: Event)
    requires Inv(c) && Enabled(c, e)
    ensures Inv(Step(c, e))
  {
    var d := Step(c, e);
    CoreStays(c, e);
    CallbacksStay(c, e);
    hide Step, Core, DisconnectOk;
    forall i: nat | i < |d.sockets| ensures DisconnectOk(d, i) { DisconnectsStay(c, e, i); }
  }

  lemma {:induction false} RunKeeps(c: Client, events: seq<Event>)
    requires Inv(c) && LegalRun(c, events)
    ensures Inv(Run(c, events))
    decreases |events|
  {
    hide Step, Inv;
    if events != [] {
      StepKeeps(c, events[0]);
      RunKeeps(Step(c, events[0]), events[1..]);
    }
  }

  // ---------- what every run guarantees ----------

  /** Each socket has a generation of its own, says hello at most once and before anything else, and the
      hello is that of the startSession that created it. */
  lemma OneHelloPerSocket(events: seq<Event>, i: nat)
    requires LegalRun(New(), events) && i < |Run(New(), events).sockets|
    ensures var c := Run(New(), events);
      && HelloFirst(c.sockets[i])
      && forall j :: 0 <= j < |c.sockets| && j != i ==> c.sockets[j].generation != c.sockets[i].generation
  {
    RunKeeps(New(), events);
    var c := Run(New(), events);
    assert SocketOk(c, i);
    forall j | 0 <= j < |c.sockets| && j != i ensures c.sockets[j].generation != c.sockets[i].generation {
      if j < i { assert c.sockets[j].generation < c.sockets[i].generation; }
      else { assert c.sockets[i].generation < c.sockets[j].generation; }
    }
  }

  /** No socket is forgotten: every one but the current was closed by the client or by the other side. */
  lemma NoSocketLeaks(events: seq<Event>, i: nat)
    requires LegalRun(New(), events) && i < |Run(New(), events).sockets|
    ensures var c := Run(New(), events);
      c.ws == Some(i) || c.sockets[i].closeCalled || c.sockets[i].isClosed
  {
    RunKeeps(New(), events);
    assert SocketOk(Run(New(), events), i);
  }

  /** A started session is told of its disconnection at most once. */
  lemma OneDisconnectPerSession(events: seq<Event>, i: nat)
    requires LegalRun(New(), events) && i < |Run(New(), events).sockets|
    ensures Disconnects(Run(New(), events).callbacks, i) <= 1
  {
    RunKeeps(New(), events);
    assert DisconnectOk(Run(New(), events), i);
  }

  /** In every reachable state a socket event reaches the client exactly when the socket is the current one,
      and then the session in force is the one that created it. */
  lemma OnlyTheCurrentSocketSpeaks(events: seq<Event>, i: nat, m: Text)
    requires LegalRun(New(), events) && i < |Run(New(), events).sockets|
    ensures var c := Run(New(), events);
      && (c.ws == Some(i) ==> c.hello == Some(c.sockets[i].creator))
      && MessageStep(c, i, m).callbacks == c.callbacks + (if c.ws == Some(i) then [Delivered(i, m)] else [])
      && CloseStep(c, i).callbacks == c.callbacks + (if c.ws == Some(i) then [Disconnected(i)] else [])
      && (c.ws != Some(i) ==> MessageStep(c, i, m) == c && OpenStep(c, i).sockets[i].closeCalled)
      && (c.ws != Some(i) ==> CloseStep(c, i) == c.(sockets := c.sockets[i := c.sockets[i].(isClosed := true)]))
      && OpenStep(c, i).sockets[i].sent
         == c.sockets[i].sent + (if c.ws == Some(i) then [SentHello(c.sockets[i].creator)] else [])
  {
    RunKeeps(New(), events);
  }

  /** One step from a state in which the socket is stale. */
  lemma StaleStep(c: Client, e: Event, i: nat)
    requires Inv(c) && i < |c.sockets| && c.ws != Some(i) && Enabled(c, e)
    ensures var d := Step(c, e);
      i < |d.sockets| && d.ws != Some(i) && d.sockets[i].sent == c.sockets[i].sent
      && c.callbacks <= d.callbacks
      && forall k :: |c.callbacks| <= k < |d.callbacks| ==> d.callbacks[k].socket != i
  {
    hide SocketOk, GenerationsGrow, DisconnectsOk, SessionKey;
    match e
    case Start(h) => assert Step(c, e) == StartStep(c, h);
    case Closed(j) => assert Step(c, e) == CloseStep(c, j);
    case _ =>
  }

  /** A socket that is not current never becomes current again, sends nothing more and never reaches the
      client again: not by replacement, by a clear, by a shutdown, or by its own close. */
  lemma {:induction false} StaleForever(c: Client, events: seq<Event>, i: nat)
    requires Inv(c) && i < |c.sockets| && c.ws != Some(i) && LegalRun(c, events)
    ensures var d := Run(c, events);
      i < |d.sockets| && d.ws != Some(i) && d.sockets[i].sent == c.sockets[i].sent
      && c.callbacks <= d.callbacks
      && forall k :: |c.callbacks| <= k < |d.callbacks| ==> d.callbacks[k].socket != i
    decreases |events|
  {
    if events != [] {
      var d := Step(c, events[0]);
      StaleStep(c, events[0], i);
      StepKeeps(c, events[0]);
      StaleForever(d, events[1..], i);
      var f := Run(c, events);
      assert forall k :: |c.callbacks| <= k < |d.callbacks| ==> f.callbacks[k] == d.callbacks[k];
    }
  }

  // ---------- when two sessions are taken for one ----------

  predicate ValidIds(h: Hello) {
    h.sessionId != [] && h.deviceId != [] && h.roomId != []
  }

  /** Some NUL in the ids could also be read as a separator that leaves no id empty. */
  predicate Ambiguous(h: Hello) {
    || (exists i :: 0 < i < |h.sessionId| && h.sessionId[i] == NUL)
    || (NUL in h.deviceId && |h.deviceId| > 1)
    || (exists i :: 0 <= i < |h.roomId| - 1 && h.roomId[i] == NUL)
  }

  ghost predicate Collides(h: Hello, g: Hello) {
    ValidIds(g) && SessionKey(g) == SessionKey(h) && SameIds(h, g) == false
  }

  predicate SameIds(h: Hello, g: Hello) {
    h.sessionId == g.sessionId && h.deviceId == g.deviceId && h.roomId == g.roomId
  }

  lemma KeyLayout(h: Hello, p: nat)
    requires p < |SessionKey(h)|
    ensures var k := SessionKey(h);
      var a := |h.sessionId|;
      var b := a + 1 + |h.deviceId|;
      && |k| == b + 1 + |h.roomId|
      && k[p] == if p < a then h.sessionId[p] else if p == a then NUL
                 else if p < b then h.deviceId[p - a - 1] else if p == b then NUL else h.roomId[p - b - 1]
  {
  }

  lemma SeparatorsFixIds(h: Hello, g: Hello)
    requires SessionKey(h) == SessionKey(g) && |h.sessionId| == |g.sessionId| && |h.deviceId| == |g.deviceId|
    ensures SameIds(h, g)
  {
    var k := SessionKey(h);
    var a := |h.sessionId|;
    var b := a + 1 + |h.deviceId|;
    assert k[..a] == h.sessionId && k[a + 1..b] == h.deviceId && k[b + 1..] == h.roomId;
    var l := SessionKey(g);
    assert l[..a] == g.sessionId && l[a + 1..b] == g.deviceId && l[b + 1..] == g.roomId;
  }

  lemma UnambiguousIsUnique(h: Hello, g: Hello)
    requires ValidIds(h) && ValidIds(g) && !Ambiguous(h) && SessionKey(g) == SessionKey(h)
    ensures SameIds(h, g)
  {
    var p := |g.sessionId|;
    var q := p + 1 + |g.deviceId|;
    KeyLayout(g, p); KeyLayout(g, q); KeyLayout(h, p); KeyLayout(h, q);
    SeparatorsFixIds(h, g);
  }

  lemma AmbiguousCollides(h: Hello) returns (g: Hello)
    requires ValidIds(h) && Ambiguous(h)
    ensures Collides(h, g)
  {
    if i :| 0 < i < |h.sessionId| && h.sessionId[i] == NUL {
      g := Hello(h.sessionId[..i], h.sessionId[i + 1..] + [NUL] + h.deviceId, h.roomId, h.rest);
    } else if NUL in h.deviceId && |h.deviceId| > 1 {
      var i :| 0 <= i < |h.deviceId| && h.deviceId[i] == NUL;
      var x, y := h.deviceId[..i], h.deviceId[i + 1..];
      if y != [] {
        g := Hello(h.sessionId + [NUL] + x, y, h.roomId, h.rest);
      } else {
        g := Hello(h.sessionId, x, y + [NUL] + h.roomId, h.rest);
      }
    } else {
      var i :| 0 <= i < |h.roomId| - 1 && h.roomId[i] == NUL;
      g := Hello(h.sessionId, h.deviceId + [NUL] + h.roomId[..i], h.roomId[i + 1..], h.rest);
    }
    assert SessionKey(g) == SessionKey(h);
  }

  /** startSession can mistake another valid session for the one in force exactly when the ids of the one in
      force contain a NUL that reads as a separator. */
  lemma SessionsMixUpIffAmbiguous(h: Hello)
    requires ValidIds(h)
    ensures (exists g :: Collides(h, g)) <==> Ambiguous(h)
  {
    if Ambiguous(h) {
      var g := AmbiguousCollides(h);
    } else {
      forall g | ValidIds(g) && SessionKey(g) == SessionKey(h) ensures SameIds(h, g) { UnambiguousIsUnique(h, g); }
    }
  }
}
