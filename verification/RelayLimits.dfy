/** Full link symmetry is not kept by the relay: the late unregistration of a replaced connection clears the
    link its replacement installed (backend/relay/relay_server.py:85-99). */
module RelayLimits {
  import opened Outcomes
  import opened Relay
  import opened RelaySafety

  // ---------- what a severing unregistration leaves behind ----------

  /** The replacement can still talk to the peer, but the peer's frames, text or bytes, no longer reach anyone. */
  lemma SeveredIsOneWay<C>(s: Registry<C>, c: C, frame: Frame)
    requires Inv(s) && Mutual(s) && Enabled(s, Unregister(c)) && Severs(s, c) && frame != Heartbeat
    ensures var p := s.conns[c].peer.value;
      var d := s.conns[p].peer.value;
      var t := UnregisterStep(s, c);
      && Open(t, p) && Open(t, d)
      && ForwardStep(t, d, frame).wire == t.wire + [Relayed(p, d, frame)]
      && ForwardStep(t, p, frame).wire == if frame.Text? then t.wire + [NoPeer(p)] else t.wire
  {
    var p := s.conns[c].peer.value;
    assert LinkedBack(s, p) && ConnOk(s, c);
  }

  /** A registration of this connection, or of another one on its code and the other role. */
  predicate Relinks<C(==)>(s: Registry<C>, e: Event<C>, p: C)
    requires p in s.conns && Enabled(s, e)
  {
    e.Link? && (e.c == p || s.conns[e.c].key == Opposite(s.conns[p].key))
  }

  lemma OnlyRegistrationLinks<C>(s: Registry<C>, e: Event<C>, p: C)
    requires Inv(s) && p in s.conns && Enabled(s, e)
    ensures p in Step(s, e).conns && Step(s, e).conns[p].key == s.conns[p].key
    ensures s.conns[p].peer.None? && Step(s, e).conns[p].peer.Some? ==> Relinks(s, e, p)
  {
    if e.Link? { assert EntryOk(s, Opposite(s.conns[e.c].key)); }
  }

  ghost predicate NeverRelinks<C>(s: Registry<C>, events: seq<Event<C>>, p: C)
    requires p in s.conns && LegalRun(s, events) && Inv(s)
    decreases |events|
  {
    events == [] || (
      OnlyRegistrationLinks(s, events[0], p);
      StepKeeps(s, events[0]);
      !Relinks(s, events[0], p) && NeverRelinks(Step(s, events[0]), events[1..], p))
  }

  /** A cleared link stays cleared until someone on the code registers again. */
  lemma {:induction false} SeveredUntilRegistration<C>(s: Registry<C>, events: seq<Event<C>>, p: C)
    requires Inv(s) && p in s.conns && s.conns[p].peer.None? && LegalRun(s, events) && NeverRelinks(s, events, p)
    ensures p in Run(s, events).conns && Run(s, events).conns[p].peer.None?
    decreases |events|
  {
    if events != [] {
      OnlyRegistrationLinks(s, events[0], p);
      StepKeeps(s, events[0]);
      SeveredUntilRegistration(Step(s, events[0]), events[1..], p);
    }
  }

  // ---------- it happens ----------

  ghost predicate Reached(s: Registry<nat>) {
    exists events :: LegalRun(Empty<nat>(), events) && Run(Empty<nat>(), events) == s
  }

  lemma {:induction false} RunExtends<C>(s: Registry<C>, events: seq<Event<C>>, e: Event<C>)
    requires LegalRun(s, events) && Enabled(Run(s, events), e)
    ensures LegalRun(s, events + [e]) && Run(s, events + [e]) == Step(Run(s, events), e)
    decreases |events|
  {
    if events == [] {
      assert events + [e] == [e];
    } else {
      RunExtends(Step(s, events[0]), events[1..], e);
      assert (events + [e])[1..] == events[1..] + [e];
    }
  }

  lemma ReachStep(s: Registry<nat>, e: Event<nat>)
    requires Reached(s) && Enabled(s, e)
    ensures Reached(Step(s, e))
  {
    var events :| LegalRun(Empty<nat>(), events) && Run(Empty<nat>(), events) == s;
    RunExtends(Empty<nat>(), events, e);
  }

  lemma Registers(s: Registry<nat>, c: nat, key: Key) returns (t: Registry<nat>)
    requires Reached(s) && c !in s.conns && s.lock.None?
    ensures Reached(t) && t == LinkStep(BeginStep(AcceptStep(s, c, key), c), c)
  {
    var a := AcceptStep(s, c, key);
    ReachStep(s, Accept(c, key));
    ReachStep(a, Begin(c));
    ReachStep(BeginStep(a, c), Link(c));
    t := LinkStep(BeginStep(a, c), c);
  }

  lemma FirstAlone(phone: Key) returns (s: Registry<nat>)
    ensures Reached(s) && s == Registry(map[0 := Conn(phone, None, false, true)], map[phone := 0], None, [])
  {
    var first: seq<Event<nat>> := [];
    assert Run(Empty<nat>(), first) == Empty<nat>();
    s := Registers(Empty<nat>(), 0, phone);
  }

  lemma LinkedConns(s: Registry<nat>, phone: Key) returns (t: Registry<nat>)
    requires phone.role == Phone
    requires s == Registry(map[0 := Conn(phone, None, false, true)], map[phone := 0], None, [])
    ensures t == LinkStep(BeginStep(AcceptStep(s, 1, Opposite(phone)), 1), 1) && t.lock.None?
    ensures t.entries == map[phone := 0, Opposite(phone) := 1]
    ensures t.conns == map[0 := Conn(phone, Some(1), false, true), 1 := Conn(Opposite(phone), Some(0), false, true)]
  {
    var a := AcceptStep(s, 1, Opposite(phone));
    var b := BeginStep(a, 1);
    assert b == a.(lock := Some(1));
    hide BeginStep, AcceptStep;
    t := LinkStep(b, 1);
  }

  lemma ThenLinked(phone: Key) returns (s: Registry<nat>)
    requires phone.role == Phone
    ensures Reached(s) && s.lock.None? && s.entries == map[phone := 0, Opposite(phone) := 1]
    ensures s.conns == map[0 := Conn(phone, Some(1), false, true), 1 := Conn(Opposite(phone), Some(0), false, true)]
  {
    var one := FirstAlone(phone);
    var two := LinkedConns(one, phone);
    hide LinkStep, BeginStep, AcceptStep, Reached;
    s := Registers(one, 1, Opposite(phone));
  }

  lemma ReplacedConns(s: Registry<nat>, phone: Key) returns (t: Registry<nat>)
    requires phone.role == Phone && s.lock.None? && s.entries == map[phone := 0, Opposite(phone) := 1]
    requires s.conns == map[0 := Conn(phone, Some(1), false, true), 1 := Conn(Opposite(phone), Some(0), false, true)]
    ensures t == LinkStep(BeginStep(AcceptStep(s, 2, phone), 2), 2) && t.lock.None?
    ensures t.conns == map[
      0 := Conn(phone, Some(1), true, true),
      1 := Conn(Opposite(phone), Some(2), false, true),
      2 := Conn(phone, Some(1), false, true)]
  {
    var a := AcceptStep(s, 2, phone);
    var b := BeginStep(a, 2);
    assert b.entries == s.entries && b.conns == map[
      0 := Conn(phone, Some(1), true, true),
      1 := Conn(Opposite(phone), Some(0), false, true),
      2 := Conn(phone, None, false, false)];
    hide BeginStep, AcceptStep;
    t := ReplacementLinks(b, phone);
  }

  lemma ReplacementLinks(b: Registry<nat>, phone: Key) returns (t: Registry<nat>)
    requires phone.role == Phone && b.entries == map[phone := 0, Opposite(phone) := 1]
    requires b.conns == map[
      0 := Conn(phone, Some(1), true, true),
      1 := Conn(Opposite(phone), Some(0), false, true),
      2 := Conn(phone, None, false, false)]
    ensures t == LinkStep(b, 2) && t.lock.None?
    ensures t.conns == map[
      0 := Conn(phone, Some(1), true, true),
      1 := Conn(Opposite(phone), Some(2), false, true),
      2 := Conn(phone, Some(1), false, true)]
  {
    var f := Filed(b, 2);
    assert Waiting(f, phone) == Some(1) && f.lock.None?;
    t := Linked(f, 2, 1);
    assert t == LinkStep(b, 2);
    hide LinkStep, Waiting;
  }

  lemma ThenReplaced(phone: Key) returns (s: Registry<nat>)
    requires phone.role == Phone
    ensures Reached(s) && s.lock.None?
    ensures s.conns == map[
      0 := Conn(phone, Some(1), true, true),
      1 := Conn(Opposite(phone), Some(2), false, true),
      2 := Conn(phone, Some(1), false, true)]
  {
    var two := ThenLinked(phone);
    var three := ReplacedConns(two, phone);
    hide LinkStep, BeginStep, AcceptStep, Reached;
    s := Registers(two, 2, phone);
  }

  /** A phone and a PC are linked, the phone reconnects, and only then does the first phone connection
      unregister: the PC loses its link to the new one. */
  lemma LateUnregistrationSevers() returns (s: Registry<nat>)
    ensures Reached(s) && Mutual(s) && s.lock.None? && 0 in s.conns && Severs(s, 0)
    ensures !Mutual(UnregisterStep(s, 0))
  {
    s := ThenReplaced(Key("c", Phone));
    var t := UnregisterStep(s, 0);
    assert Open(t, 2) && t.conns[2].peer == Some(1) && !LinkedBack(t, 2);
  }
}
