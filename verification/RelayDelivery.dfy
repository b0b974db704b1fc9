/** What the relay's registry answers, exactly (backend/relay/relay_server.py:62-125): where a frame goes and what is
    said otherwise, what registering and unregistering tell whom, and that a pair delivers both ways until it is
    disturbed. */
module RelayDelivery {
  import opened Outcomes
  import opened Relay
  import opened RelaySafety

  /** The other side: the same code, the other of the two roles. */
  lemma OppositeIsTheOtherSide(key: Key)
    ensures Opposite(key).code == key.code && Opposite(key).role != key.role && Opposite(Opposite(key)) == key
  {
  }

  // ---------- frames ----------

  /** The connection's link names an open peer. */
  predicate Reaches<C(==)>(s: Registry<C>, c: C, p: C)
    requires c in s.conns
  {
    s.conns[c].peer == Some(p) && p in s.conns && !s.conns[p].closed
  }

  /** In every reachable registry, for text and bytes alike: a frame is passed on unchanged exactly when the link
      names an open peer, which is then the only open connection of the other side; otherwise the sender of text is
      told that there is no peer, and bytes go nowhere without a word. A heartbeat is answered. Nothing but the
      wire changes. */
  lemma FrameOutcome<C>(events: seq<Event<C>>, c: C, frame: Frame)
    requires LegalRun(Empty<C>(), events) && c in Run(Empty<C>(), events).conns
    ensures var s := Run(Empty<C>(), events);
      var t := Step(s, Forward(c, frame));
      && t.conns == s.conns && t.entries == s.entries && t.lock == s.lock
      && (frame == Heartbeat ==> t.wire == s.wire + [Pong(c)])
      && (frame != Heartbeat ==>
            && (forall p :: Reaches(s, c, p) <==> t.wire == s.wire + [Relayed(p, c, frame)])
            && (forall p :: Reaches(s, c, p) ==> IsTheOtherSide(s, c, p))
            && ((forall p :: !Reaches(s, c, p)) ==> t.wire == if frame.Text? then s.wire + [NoPeer(c)] else s.wire))
  {
    var s := Run(Empty<C>(), events);
    RunKeeps(Empty<C>(), events);
    assert ConnOk(s, c);
    if frame != Heartbeat {
      forall p | Reaches(s, c, p) ensures IsTheOtherSide(s, c, p) { OnlyOneIsThere(s, c, p); }
      LastMessage(s, c, frame);
    }
  }

  lemma OnlyOneIsThere<C>(s: Registry<C>, c: C, p: C)
    requires Inv(s) && c in s.conns && Reaches(s, c, p)
    ensures IsTheOtherSide(s, c, p)
  {
    assert ConnOk(s, c);
    forall d | d in s.conns && Open(s, d) && s.conns[d].registered && s.conns[d].key == Opposite(s.conns[c].key)
      ensures d == p
    {
      assert ConnOk(s, d) && ConnOk(s, p);
    }
  }

  lemma LastMessage<C>(s: Registry<C>, c: C, frame: Frame)
    requires c in s.conns && frame != Heartbeat
    ensures forall p :: Reaches(s, c, p) <==> Step(s, Forward(c, frame)).wire == s.wire + [Relayed(p, c, frame)]
    ensures (forall p :: !Reaches(s, c, p)) ==>
              Step(s, Forward(c, frame)).wire == if frame.Text? then s.wire + [NoPeer(c)] else s.wire
  {
    var t := Step(s, Forward(c, frame));
    forall p ensures Reaches(s, c, p) <==> t.wire == s.wire + [Relayed(p, c, frame)] {
      if t.wire == s.wire + [Relayed(p, c, frame)] {
        assert |t.wire| == |s.wire| + 1 && t.wire[|s.wire|] == Relayed(p, c, frame);
      }
    }
    var peer := s.conns[c].peer;
    if peer.Some? { assert Reaches(s, c, peer.value) <==> Open(s, peer.value); }
  }

  // ---------- a pair delivers both ways ----------

  /** Two open connections of one code, linked with each other. */
  ghost predicate Together<C>(s: Registry<C>, c: C, p: C) {
    && Open(s, c) && Open(s, p) && s.conns[c].registered && s.conns[p].registered
    && s.conns[c].peer == Some(p) && s.conns[p].peer == Some(c)
    && s.conns[p].key == Opposite(s.conns[c].key)
    && (s.lock.Some? && s.lock.value in s.conns && s.lock.value != c && s.lock.value != p ==>
          s.conns[s.lock.value].key != s.conns[c].key && s.conns[s.lock.value].key != s.conns[p].key)
  }

  /** Neither is closed, unregistered or replaced, and nobody whose link names one of them unregisters. */
  predicate LeavesTogether<C(==)>(s: Registry<C>, e: Event<C>, c: C, p: C)
    requires c in s.conns && p in s.conns && Enabled(s, e)
  {
    match e
    case Accept(_, _) => true
    case Begin(d) => d == c || d == p || (s.conns[d].key != s.conns[c].key && s.conns[d].key != s.conns[p].key)
    case Link(d) => true
    case Close(d) => d != c && d != p
    case Unregister(d) => d != c && d != p && s.conns[d].peer != Some(c) && s.conns[d].peer != Some(p)
    case Forward(_, _) => true
  }

  ghost predicate NeverDisturbed<C>(s: Registry<C>, events: seq<Event<C>>, c: C, p: C)
    requires LegalRun(s, events)
    decreases |events|
  {
    events == [] ||
    (c in s.conns && p in s.conns && LeavesTogether(s, events[0], c, p)
     && NeverDisturbed(Step(s, events[0]), events[1..], c, p))
  }

  lemma OthersStayTogether<C>(s: Registry<C>, e: Event<C>, c: C, p: C)
    requires Inv(s) && Together(s, c, p) && Enabled(s, e) && LeavesTogether(s, e, c, p) && !e.Link?
    ensures Together(Step(s, e), c, p)
  {
    assert ConnOk(s, c) && ConnOk(s, p);
    if e.Begin? { assert EntryOk(s, s.conns[e.c].key); }
  }

  lemma LinkStaysTogether<C>(s: Registry<C>, d: C, c: C, p: C)
    requires Inv(s) && Together(s, c, p) && Enabled(s, Link(d))
    ensures Together(Step(s, Link(d)), c, p)
  {
    assert ConnOk(s, c) && ConnOk(s, p) && EntryOk(s, Opposite(s.conns[d].key));
    var t := LinkStep(s, d);
    assert t == Step(s, Link(d));
  }

  /** After a registration has paired two connections, and for as long as neither is closed, unregistered or
      replaced and nobody linked to one of them unregisters, every frame but a heartbeat is delivered both ways. */
  lemma {:induction false} PairDelivers<C>(s: Registry<C>, events: seq<Event<C>>, c: C, p: C, frame: Frame)
    requires Inv(s) && Together(s, c, p) && LegalRun(s, events) && NeverDisturbed(s, events, c, p)
    requires frame != Heartbeat
    ensures var t := Run(s, events);
      && Together(t, c, p)
      && Step(t, Forward(c, frame)).wire == t.wire + [Relayed(p, c, frame)]
      && Step(t, Forward(p, frame)).wire == t.wire + [Relayed(c, p, frame)]
    decreases |events|
  {
    if events != [] {
      var e := events[0];
      if e.Link? { LinkStaysTogether(s, e.c, c, p); } else { OthersStayTogether(s, e, c, p); }
      StepKeeps(s, e);
      hide Step, Inv, Together;
      PairDelivers(Step(s, e), events[1..], c, p, frame);
    }
  }

  lemma RegistrationBringsTogether<C>(events: seq<Event<C>>, c: C, p: C)
    requires LegalRun(Empty<C>(), events) && Enabled(Run(Empty<C>(), events), Link(c))
    requires Open(Run(Empty<C>(), events), c) && Open(Run(Empty<C>(), events), p)
    requires Run(Empty<C>(), events).conns[p].registered
    requires Run(Empty<C>(), events).conns[p].key == Opposite(Run(Empty<C>(), events).conns[c].key)
    ensures Together(Step(Run(Empty<C>(), events), Link(c)), c, p)
    ensures Inv(Step(Run(Empty<C>(), events), Link(c)))
  {
    var s := Run(Empty<C>(), events);
    RegistrationPairs(events, c, p);
    RunKeeps(Empty<C>(), events);
    StepKeeps(s, Link(c));
    assert ConnOk(s, p) && ConnOk(s, c) && EntryOk(s, s.conns[c].key);
    hide Inv;
  }

  // ---------- registering and unregistering ----------

  /** Taking the lock closes the open connection that was filed under the key, if it is another one, and nothing
      else: then no other open registered connection has the key. */
  lemma OlderIsClosed<C>(events: seq<Event<C>>, c: C, d: C)
    requires LegalRun(Empty<C>(), events) && Enabled(Run(Empty<C>(), events), Begin(c))
    requires d in Run(Empty<C>(), events).conns && d != c
    ensures var s := Run(Empty<C>(), events);
      var t := Step(s, Begin(c));
      && t.entries == s.entries && t.wire == s.wire && t.lock == Some(c) && t.conns.Keys == s.conns.Keys
      && t.conns[c] == s.conns[c]
      && t.conns[d] == s.conns[d].(closed := s.conns[d].closed
                                             || (s.conns[d].registered && s.conns[d].key == s.conns[c].key))
  {
    var s := Run(Empty<C>(), events);
    RunKeeps(Empty<C>(), events);
    assert ConnOk(s, d) && ConnOk(s, c) && EntryOk(s, s.conns[c].key);
  }

  /** Someone open and registered waits on the other side. */
  ghost predicate SomeoneWaits<C>(s: Registry<C>, c: C)
    requires c in s.conns
  {
    exists p :: p in s.conns && Waits(s, c, p)
  }

  predicate Waits<C(==)>(s: Registry<C>, c: C, p: C)
    requires c in s.conns
  {
    p in s.conns && !s.conns[p].closed && s.conns[p].registered && s.conns[p].key == Opposite(s.conns[c].key)
  }

  /** A registration tells both sides that they are paired exactly when someone waits; otherwise it only files the
      connection, and its link is as before. */
  lemma RegistrationOutcome<C>(events: seq<Event<C>>, c: C, p: C)
    requires LegalRun(Empty<C>(), events) && Enabled(Run(Empty<C>(), events), Link(c))
    ensures var s := Run(Empty<C>(), events);
      var t := Step(s, Link(c));
      && t.entries == s.entries[s.conns[c].key := c] && t.lock.None?
      && (Waits(s, c, p) ==> t.wire == s.wire + [Paired(c, p), Paired(p, c)])
      && (!SomeoneWaits(s, c) ==>
            t.wire == s.wire && t.conns == s.conns[c := s.conns[c].(registered := true)])
  {
    var s := Run(Empty<C>(), events);
    RunKeeps(Empty<C>(), events);
    assert EntryOk(s, Opposite(s.conns[c].key));
    if Waits(s, c, p) { assert ConnOk(s, p); }
    var w := Waiting(Filed(s, c), s.conns[c].key);
    if w.Some? { assert Waits(s, c, w.value); }
  }

  /** Unregistering closes the connection, forgets its link and takes its entry out if it is still its own. The
      open peer that its link names loses its link and is told; nobody else learns or loses anything. */
  lemma UnregistrationOutcome<C>(events: seq<Event<C>>, c: C)
    requires LegalRun(Empty<C>(), events) && Enabled(Run(Empty<C>(), events), Unregister(c))
    ensures var s := Run(Empty<C>(), events);
      var t := Step(s, Unregister(c));
      && t.conns.Keys == s.conns.Keys && t.conns[c] == Conn(s.conns[c].key, None, true, s.conns[c].registered)
      && (forall key :: key in t.entries <==> key in s.entries && s.entries[key] != c)
      && (forall key :: key in t.entries && key in s.entries ==> t.entries[key] == s.entries[key])
      && (forall p :: Reaches(s, c, p) ==>
            && t.wire == s.wire + [PeerLeft(p, c)] && t.conns[p] == s.conns[p].(peer := None))
      && ((forall p :: !Reaches(s, c, p)) ==> t.wire == s.wire)
      && (forall d :: d in s.conns && d != c && !Reaches(s, c, d) ==> t.conns[d] == s.conns[d])
  {
    var s := Run(Empty<C>(), events);
    RunKeeps(Empty<C>(), events);
    assert ConnOk(s, c);
    OwnEntryOnly(s, c);
    hide Inv;
    var peer := s.conns[c].peer;
    if peer.Some? {
      assert Reaches(s, c, peer.value) <==> Open(s, peer.value);
      assert s.conns[peer.value].key != s.conns[c].key;
    }
  }

  lemma OwnEntryOnly<C>(s: Registry<C>, c: C)
    requires Inv(s) && c in s.conns
    ensures forall key :: key in s.entries && s.entries[key] == c ==> key == s.conns[c].key
  {
    forall key | key in s.entries && s.entries[key] == c ensures key == s.conns[c].key {
      assert EntryOk(s, key);
    }
  }
}
