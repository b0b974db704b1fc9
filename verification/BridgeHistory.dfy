/** The bridge client told by its events alone (sidecar/bridge.js): which session is in force, on which socket, what
    each socket was told and what the client's callbacks were told. Neither generations nor flags appear here. */
module BridgeHistory {
  import opened Outcomes
  import opened JsText
  import opened Bridge
  import opened BridgeSafety

  // ---------- what the events say ----------

  function Before(events: seq<Event>): seq<Event>
    requires events != []
  {
    events[..|events| - 1]
  }

  function Last(events: seq<Event>): Event
    requires events != []
  {
    events[|events| - 1]
  }

  /** A session that is not the one in force already. */
  ghost predicate Starts(past: seq<Event>, e: Event)
    decreases |past|, 2
  {
    e.Start? && (InForce(past).None? || SessionKey(InForce(past).value) != SessionKey(e.hello))
  }

  ghost predicate Ends(past: seq<Event>, e: Event)
    decreases |past|, 2
  {
    e.Clear? || e.Shutdown? || (e.Closed? && Current(past) == Some(e.socket))
  }

  /** The session in force: the latest that was started and has not ended. */
  ghost function InForce(events: seq<Event>): Option<Hello>
    decreases |events|, 0
  {
    if events == [] then None
    else
      var past, e := Before(events), Last(events);
      if Starts(past, e) then Some(e.hello) else if Ends(past, e) then None else InForce(past)
  }

  /** One socket for every session started. */
  ghost function SocketCount(events: seq<Event>): nat
    decreases |events|, 0
  {
    if events == [] then 0 else SocketCount(Before(events)) + if Starts(Before(events), Last(events)) then 1 else 0
  }

  /** The socket of the session in force. */
  ghost function Current(events: seq<Event>): Option<nat>
    decreases |events|, 1
  {
    if InForce(events).None? || SocketCount(events) == 0 then None else Some(SocketCount(events) - 1)
  }

  /** The session a socket was made for. */
  ghost function MadeFor(events: seq<Event>, i: nat): Option<Hello> {
    if events == [] then None
    else
      var past, e := Before(events), Last(events);
      if Starts(past, e) && SocketCount(past) == i then Some(e.hello) else MadeFor(past, i)
  }

  /** Messages and the close of the current socket reach the client, and nothing else does. */
  ghost function Told(events: seq<Event>): seq<Callback> {
    if events == [] then []
    else
      var past, e := Before(events), Last(events);
      Told(past) + (if e.Message? && Current(past) == Some(e.socket) then [Delivered(e.socket, e.message)]
                    else if e.Closed? && Current(past) == Some(e.socket) then [Disconnected(e.socket)] else [])
  }

  /** A socket is sent the hello of the session in force when it opens as the current one, and payloads while it is
      current and ready. */
  ghost function SentTo(events: seq<Event>, i: nat): seq<Sent> {
    if events == [] then []
    else
      var past, e := Before(events), Last(events);
      SentTo(past, i) + (if Current(past) != Some(i) || InForce(past).None? then []
                         else if e == Opened(i) then [SentHello(InForce(past).value)]
                         else if e.Send? && e.ready then [SentPayload(e.payload)] else [])
  }

  /** close() is called on a socket that loses its session, that opens too late, or that fails. */
  ghost predicate CloseCalled(events: seq<Event>, i: nat) {
    events != [] &&
    var past, e := Before(events), Last(events);
    || (Current(past) == Some(i) && (Starts(past, e) || e.Clear? || e.Shutdown?))
    || (Current(past) != Some(i) && e == Opened(i))
    || e == Failed(i)
    || CloseCalled(past, i)
  }

  ghost predicate WasOpened(events: seq<Event>, i: nat) {
    events != [] && (Last(events) == Opened(i) || WasOpened(Before(events), i))
  }

  /** The client was shut down and nothing was started since. */
  ghost predicate Stopped(events: seq<Event>) {
    events != [] && (Last(events).Shutdown? || (!Last(events).Start? && Stopped(Before(events))))
  }

  // ---------- the client agrees ----------

  ghost predicate SocketAgrees(c: Client, events: seq<Event>, i: nat)
    requires i < |c.sockets|
  {
    && Some(c.sockets[i].creator) == MadeFor(events, i) && c.sockets[i].sent == SentTo(events, i)
    && c.sockets[i].closeCalled == CloseCalled(events, i) && c.sockets[i].wasOpened == WasOpened(events, i)
  }

  /** Sockets that are not there yet have no history. */
  ghost predicate NothingYet(events: seq<Event>, i: nat) {
    SentTo(events, i) == [] && !CloseCalled(events, i) && !WasOpened(events, i)
  }

  ghost predicate ClientAgrees(c: Client, events: seq<Event>) {
    && c.hello == InForce(events) && c.ws == Current(events) && |c.sockets| == SocketCount(events)
    && c.callbacks == Told(events) && c.stop == Stopped(events)
    && (c.connected <==> c.ws.Some? && c.ws.value < |c.sockets| && c.sockets[c.ws.value].wasOpened)
  }

  ghost predicate SocketsAgree(c: Client, events: seq<Event>) {
    && (forall i :: 0 <= i < |c.sockets| ==> SocketAgrees(c, events, i))
    && (forall i: nat :: i >= |c.sockets| ==> NothingYet(events, i))
  }

  // ---------- one more event ----------

  lemma {:induction false} OneMore(past: seq<Event>, e: Event)
    ensures var all := past + [e];
      && InForce(all) == (if Starts(past, e) then Some(e.hello) else if Ends(past, e) then None else InForce(past))
      && SocketCount(all) == SocketCount(past) + (if Starts(past, e) then 1 else 0)
      && Told(all) == Told(past)
           + (if e.Message? && Current(past) == Some(e.socket) then [Delivered(e.socket, e.message)]
              else if e.Closed? && Current(past) == Some(e.socket) then [Disconnected(e.socket)] else [])
      && Stopped(all) == (e.Shutdown? || (!e.Start? && Stopped(past)))
  {
    var all := past + [e];
    assert Before(all) == past && Last(all) == e;
    hide Starts, Ends, Current;
  }

  lemma {:induction false} OneMoreFor(past: seq<Event>, e: Event, i: nat)
    ensures var all := past + [e];
      && MadeFor(all, i) == (if Starts(past, e) && SocketCount(past) == i then Some(e.hello) else MadeFor(past, i))
      && SentTo(all, i) == SentTo(past, i)
           + (if Current(past) != Some(i) || InForce(past).None? then []
              else if e == Opened(i) then [SentHello(InForce(past).value)]
              else if e.Send? && e.ready then [SentPayload(e.payload)] else [])
      && CloseCalled(all, i) == (|| (Current(past) == Some(i) && (Starts(past, e) || e.Clear? || e.Shutdown?))
                                 || (Current(past) != Some(i) && e == Opened(i)) || e == Failed(i)
                                 || CloseCalled(past, i))
      && WasOpened(all, i) == (e == Opened(i) || WasOpened(past, i))
  {
    var all := past + [e];
    assert Before(all) == past && Last(all) == e;
    hide Starts, Current, InForce, SocketCount;
  }

  /** What an event means, read off the state. */
  lemma {:induction false} ReadOff(c: Client, past: seq<Event>, e: Event)
    requires Inv(c) && ClientAgrees(c, past)
    ensures Starts(past, e) <==> e.Start? && c.key != Some(SessionKey(e.hello))
    ensures Ends(past, e) <==> e.Clear? || e.Shutdown? || (e.Closed? && c.ws == Some(e.socket))
    ensures c.ws.Some? <==> c.hello.Some?
  {
    hide InForce, SocketCount, Told, Stopped, SessionKey, GenerationsGrow, SocketOk, DisconnectsOk;
  }

  lemma ClientStep(c: Client, e: Event)
    requires Inv(c) && Enabled(c, e)
    ensures var d := Step(c, e);
      var starts := e.Start? && c.key != Some(SessionKey(e.hello));
      var ends := e.Clear? || e.Shutdown? || (e.Closed? && c.ws == Some(e.socket));
      && d.hello == (if starts then Some(e.hello) else if ends then None else c.hello)
      && |d.sockets| == |c.sockets| + (if starts then 1 else 0)
      && d.ws == (if starts then Some(|c.sockets|) else if ends then None else c.ws)
      && d.callbacks == c.callbacks
           + (if e.Message? && c.ws == Some(e.socket) then [Delivered(e.socket, e.message)]
              else if e.Closed? && c.ws == Some(e.socket) then [Disconnected(e.socket)] else [])
      && d.stop == (e.Shutdown? || (!e.Start? && c.stop))
      && d.connected == (!starts && !ends && (c.connected || (e.Opened? && c.ws == Some(e.socket))))
  {
    hide SocketOk, GenerationsGrow, DisconnectsOk, SessionKey;
    match e
    case Start(h) => assert Step(c, e) == StartStep(c, h);
    case Closed(j) => assert Step(c, e) == CloseStep(c, j);
    case _ =>
  }

  /** What becomes of a socket. */
  ghost predicate SocketBecomes(c: Client, e: Event, i: nat, d: Socket) {
    var starts := e.Start? && c.key != Some(SessionKey(e.hello));
    if i < |c.sockets| then
      && d.creator == c.sockets[i].creator
      && d.wasOpened == (e == Opened(i) || c.sockets[i].wasOpened)
      && d.closeCalled == (|| (c.ws == Some(i) && (starts || e.Clear? || e.Shutdown?))
                           || (c.ws != Some(i) && e == Opened(i)) || e == Failed(i) || c.sockets[i].closeCalled)
      && d.sent == c.sockets[i].sent
           + (if c.ws != Some(i) || c.hello.None? then []
              else if e == Opened(i) then [SentHello(c.hello.value)]
              else if e.Send? && e.ready then [SentPayload(e.payload)] else [])
    else starts && i == |c.sockets| && d.creator == e.hello && !d.wasOpened && !d.closeCalled && d.sent == []
  }

  lemma SocketAfterStart(c: Client, h: Hello, i: nat)
    requires Inv(c) && i < |StartStep(c, h).sockets|
    ensures SocketBecomes(c, Start(h), i, StartStep(c, h).sockets[i])
  {
    hide SocketOk, GenerationsGrow, DisconnectsOk, SessionKey;
  }

  lemma SocketAfterLettingGo(c: Client, e: Event, i: nat)
    requires Inv(c) && (e.Clear? || e.Shutdown?) && i < |c.sockets|
    ensures i < |Step(c, e).sockets| && SocketBecomes(c, e, i, Step(c, e).sockets[i])
  {
    hide SocketOk, GenerationsGrow, DisconnectsOk, SessionKey;
  }

  lemma SocketAfterOpening(c: Client, j: nat, i: nat)
    requires Inv(c) && Enabled(c, Opened(j)) && i < |c.sockets|
    ensures i < |OpenStep(c, j).sockets| && SocketBecomes(c, Opened(j), i, OpenStep(c, j).sockets[i])
  {
    hide SocketOk, GenerationsGrow, DisconnectsOk, SessionKey;
  }

  lemma SocketAfterClosing(c: Client, j: nat, i: nat)
    requires Inv(c) && Enabled(c, Closed(j)) && i < |c.sockets|
    ensures i < |CloseStep(c, j).sockets| && SocketBecomes(c, Closed(j), i, CloseStep(c, j).sockets[i])
  {
    hide SocketOk, GenerationsGrow, DisconnectsOk, SessionKey;
  }

  lemma SocketAfterSending(c: Client, payload: Text, ready: bool, i: nat)
    requires Inv(c) && Enabled(c, Send(payload, ready)) && i < |c.sockets|
    ensures i < |SendStep(c, payload, ready).sockets|
    ensures SocketBecomes(c, Send(payload, ready), i, SendStep(c, payload, ready).sockets[i])
  {
    hide SocketOk, GenerationsGrow, DisconnectsOk, SessionKey;
  }

  lemma SocketStep(c: Client, e: Event, i: nat)
    requires Inv(c) && Enabled(c, e) && i < |Step(c, e).sockets|
    ensures SocketBecomes(c, e, i, Step(c, e).sockets[i])
  {
    ClientStep(c, e);
    hide Inv, SessionKey, StartStep, ClearStep, OpenStep, CloseStep, SendStep;
    match e
    case Start(h) => SocketAfterStart(c, h, i);
    case Clear => SocketAfterLettingGo(c, e, i);
    case Shutdown => SocketAfterLettingGo(c, e, i);
    case Opened(j) => SocketAfterOpening(c, j, i);
    case Closed(j) => SocketAfterClosing(c, j, i);
    case Send(p, ready) => SocketAfterSending(c, p, ready, i);
    case Message(_, _) => assert c.sockets[i].sent + [] == c.sockets[i].sent;
    case Failed(_) => assert c.sockets[i].sent + [] == c.sockets[i].sent;
  }

  lemma {:induction false} ClientStepAgrees(c: Client, past: seq<Event>, e: Event)
    requires Inv(c) && Enabled(c, e) && ClientAgrees(c, past)
    requires forall i :: 0 <= i < |c.sockets| ==> SocketAgrees(c, past, i)
    ensures ClientAgrees(Step(c, e), past + [e])
  {
    OneMore(past, e);
    ReadOff(c, past, e);
    ClientStep(c, e);
    var d := Step(c, e);
    if d.ws.Some? && d.ws.value < |d.sockets| { SocketStep(c, e, d.ws.value); }
    hide Step, InForce, SocketCount, Told, Stopped, Starts, Ends, Enabled, Inv, SocketAgrees, SessionKey;
  }

  lemma {:induction false} SocketStepAgrees(c: Client, past: seq<Event>, e: Event, i: nat)
    requires Inv(c) && Enabled(c, e) && ClientAgrees(c, past) && SocketsAgree(c, past)
    requires i < |Step(c, e).sockets|
    ensures SocketAgrees(Step(c, e), past + [e], i)
  {
    OneMoreFor(past, e, i);
    ReadOff(c, past, e);
    SocketStep(c, e, i);
    if i < |c.sockets| { assert SocketAgrees(c, past, i); } else { assert NothingYet(past, i); }
    hide Step, InForce, SocketCount, Told, Stopped, Starts, Ends, Inv, SessionKey, SentTo, CloseCalled, MadeFor;
    hide WasOpened;
  }

  lemma {:induction false} NothingYetStays(c: Client, past: seq<Event>, e: Event, i: nat)
    requires Inv(c) && Enabled(c, e) && ClientAgrees(c, past) && SocketsAgree(c, past)
    requires i >= |Step(c, e).sockets|
    ensures NothingYet(past + [e], i)
  {
    OneMoreFor(past, e, i);
    ClientStep(c, e);
    assert NothingYet(past, i);
    hide Step, InForce, SocketCount, Told, Stopped, Starts, SessionKey, SentTo, CloseCalled, MadeFor, WasOpened;
  }

  lemma {:induction false} Unroll(c: Client, events: seq<Event>)
    requires LegalRun(c, events) && events != []
    ensures LegalRun(c, Before(events)) && Enabled(Run(c, Before(events)), Last(events))
    ensures Run(c, events) == Step(Run(c, Before(events)), Last(events))
    decreases |events|
  {
    hide Step, Enabled;
    var past := Before(events);
    if |events| == 1 {
      assert past == [] && events[1..] == [];
    } else {
      Unroll(Step(c, events[0]), events[1..]);
      assert past[0] == events[0] && past[1..] == Before(events[1..]) && Last(events[1..]) == Last(events);
    }
  }

  lemma {:induction false} StartAgrees()
    ensures Inv(New()) && ClientAgrees(New(), []) && SocketsAgree(New(), [])
  {
  }

  /** In every reachable state the client is what its events say: the session in force and its socket, the hello and
      payloads each socket was sent, on which close was called, and what the callbacks were told. */
  lemma {:induction false} ClientIsHistory(events: seq<Event>)
    requires LegalRun(New(), events)
    ensures Inv(Run(New(), events)) && ClientAgrees(Run(New(), events), events)
    ensures SocketsAgree(Run(New(), events), events)
    decreases |events|
  {
    if events == [] {
      StartAgrees();
    } else {
      hide Step, Inv, ClientAgrees, SocketAgrees, NothingYet, Enabled;
      Unroll(New(), events);
      var past, e := Before(events), Last(events);
      ClientIsHistory(past);
      var c := Run(New(), past);
      assert events == past + [e];
      hide Run, LegalRun;
      ClientStepAgrees(c, past, e);
      StepKeeps(c, e);
      forall i | 0 <= i < |Step(c, e).sockets| ensures SocketAgrees(Step(c, e), events, i) {
        SocketStepAgrees(c, past, e, i);
      }
      forall i: nat | i >= |Step(c, e).sockets| ensures NothingYet(events, i) { NothingYetStays(c, past, e, i); }
    }
  }

  /** Starting another session replaces one still in force: the new one is in force on a new socket, the old socket
      is closed, and starting the one in force again changes nothing but a shutdown. */
  lemma StartReplaces(events: seq<Event>, h: Hello)
    requires LegalRun(New(), events)
    ensures var c := Run(New(), events);
      var d := Step(c, Start(h));
      if InForce(events).Some? && SessionKey(InForce(events).value) == SessionKey(h) then d == c.(stop := false)
      else
        && d.hello == Some(h) && d.ws == Some(|c.sockets|) && |d.sockets| == |c.sockets| + 1
        && d.sockets[|c.sockets|].creator == h && !d.connected && d.callbacks == c.callbacks
        && (c.ws.Some? ==> c.ws.value < |c.sockets| && d.sockets[c.ws.value].closeCalled)
  {
    var c := Run(New(), events);
    ClientIsHistory(events);
    ReadOff(c, events, Start(h));
    ClientStep(c, Start(h));
    SocketStep(c, Start(h), |Step(c, Start(h)).sockets| - 1);
    if c.ws.Some? { SocketStep(c, Start(h), c.ws.value); }
    hide InForce, Run, LegalRun, Told, SocketOk, SessionKey;
    if c.key == Some(SessionKey(h)) { assert Step(c, Start(h)) == StartStep(c, h); }
  }
}
