/** What the relay's registry keeps over every run, and when its links stay mutual. */
module RelaySafety {
  import opened Outcomes
  import opened Relay

  // ---------- the invariant ----------

  /** An entry names a connection filed under its own key. */
  ghost predicate EntryOk<C>(s: Registry<C>, key: Key) {
    key in s.entries ==>
      s.entries[key] in s.conns && s.conns[s.entries[key]].key == key && s.conns[s.entries[key]].registered
  }

  /** An open registered connection is the entry for its key. */
  ghost predicate IsEntry<C>(s: Registry<C>, c: C)
    requires c in s.conns
  {
    s.conns[c].registered && !s.conns[c].closed ==> s.conns[c].key in s.entries && s.entries[s.conns[c].key] == c
  }

  /** Peers share the pairing code and have opposite roles. */
  ghost predicate PeerMatches<C>(s: Registry<C>, c: C)
    requires c in s.conns
  {
    var conn := s.conns[c];
    conn.peer.Some? ==>
      && conn.registered && conn.peer.value in s.conns && s.conns[conn.peer.value].registered
      && s.conns[conn.peer.value].key == Opposite(conn.key)
  }

  /** The peer of an open connection points back or nowhere, never at a third connection. */
  ghost predicate PointsBack<C>(s: Registry<C>, c: C)
    requires c in s.conns
  {
    var conn := s.conns[c];
    !conn.closed && conn.peer.Some? && conn.peer.value in s.conns ==>
      s.conns[conn.peer.value].peer == Some(c) || s.conns[conn.peer.value].peer == None
  }

  /** While a registration holds the lock, whatever is filed under its key is closed or itself. */
  ghost predicate LockOk<C>(s: Registry<C>) {
    s.lock.Some? ==>
      && s.lock.value in s.conns
      && var key := s.conns[s.lock.value].key;
         key in s.entries ==> s.entries[key] == s.lock.value || !Open(s, s.entries[key])
  }

  ghost predicate ConnOk<C>(s: Registry<C>, c: C)
    requires c in s.conns
  {
    IsEntry(s, c) && PeerMatches(s, c) && PointsBack(s, c)
  }

  /** Every relayed frame went from a connection to one of the same code and the other role. */
  ghost predicate WireOk<C>(s: Registry<C>) {
    forall i :: 0 <= i < |s.wire| && s.wire[i].Relayed? ==>
      && s.wire[i].from in s.conns && s.wire[i].to in s.conns
      && s.conns[s.wire[i].to].key == Opposite(s.conns[s.wire[i].from].key)
  }

  ghost predicate Inv<C>(s: Registry<C>) {
    && (forall key :: EntryOk(s, key))
    && (forall c :: c in s.conns ==> ConnOk(s, c))
    && LockOk(s) && WireOk(s)
  }

  lemma EntriesStay<C>(s: Registry<C>, e: Event<C>, key: Key)
    requires Inv(s) && Enabled(s, e)
    ensures EntryOk(Step(s, e), key)
  {
    assert EntryOk(s, key);
  }

  lemma ConnsStay<C>(s: Registry<C>, e: Event<C>, c: C)
    requires Inv(s) && Enabled(s, e) && !e.Link? && c in Step(s, e).conns
    ensures ConnOk(Step(s, e), c)
  {
    if c in s.conns { assert ConnOk(s, c); }
    match e
    case Unregister(d) => UnregisterKeepsConn(s, d, c);
    case _ =>
  }

  lemma LeftKeepsConn<C>(s: Registry<C>, d: C, c: C)
    requires d in s.conns && c in s.conns && ConnOk(s, c) && ConnOk(s, d)
    ensures ConnOk(Left(s, d), c)
  {
  }

  lemma ClearedKeepsConn<C>(s: Registry<C>, p: C, wire: seq<Message<C>>, c: C)
    requires p in s.conns && c in s.conns && ConnOk(s, c)
    ensures ConnOk(Update(s, p, s.conns[p].(peer := None)).(wire := wire), c)
  {
  }

  lemma UnregisterKeepsConn<C>(s: Registry<C>, d: C, c: C)
    requires Inv(s) && d in s.conns && c in s.conns
    ensures ConnOk(UnregisterStep(s, d), c)
  {
    assert ConnOk(s, c) && ConnOk(s, d);
    LeftKeepsConn(s, d, c);
    hide Inv, ConnOk, Left;
    var gone, peer := Left(s, d), s.conns[d].peer;
    if peer.Some? && Open(gone, peer.value) {
      LeftKeepsKeys(s, d);
      ClearedKeepsConn(gone, peer.value, s.wire + [PeerLeft(peer.value, d)], c);
    }
  }

  lemma LeftKeepsKeys<C>(s: Registry<C>, d: C)
    requires d in s.conns
    ensures Left(s, d).conns.Keys == s.conns.Keys && Left(s, d).wire == s.wire
  {
  }

  lemma FiledKeepsConn<C>(s: Registry<C>, d: C, c: C)
    requires Inv(s) && Enabled(s, Link(d)) && c in s.conns
    ensures ConnOk(Filed(s, d), c)
  {
    assert ConnOk(s, c) && ConnOk(s, d) && EntryOk(s, s.conns[d].key);
  }

  lemma LinkedKeepsConn<C>(f: Registry<C>, d: C, p: C, c: C)
    requires c in f.conns && d in f.conns && p in f.conns && ConnOk(f, c) && ConnOk(f, d) && ConnOk(f, p)
    requires f.conns[d].registered && f.conns[d].key in f.entries && f.entries[f.conns[d].key] == d
    requires f.conns[p].registered && f.conns[p].key in f.entries && f.entries[f.conns[p].key] == p
    requires f.conns[p].key == Opposite(f.conns[d].key)
    ensures ConnOk(Linked(f, d, p), c)
  {
  }

  lemma LinkKeepsConn<C>(s: Registry<C>, d: C, c: C)
    requires Inv(s) && Enabled(s, Link(d)) && c in s.conns
    ensures ConnOk(LinkStep(s, d), c)
  {
    FiledKeepsConn(s, d, c);
    var w := Waiting(Filed(s, d), s.conns[d].key);
    if w.Some? {
      FiledKeepsConn(s, d, d);
      assert EntryOk(s, Opposite(s.conns[d].key));
      FiledKeepsConn(s, d, w.value);
      LinkedKeepsConn(Filed(s, d), d, w.value, c);
    }
  }

  lemma LockStays<C>(s: Registry<C>, e: Event<C>)
    requires Inv(s) && Enabled(s, e)
    ensures LockOk(Step(s, e))
  {
    if e.c in s.conns { assert EntryOk(s, s.conns[e.c].key); }
    if s.lock.Some? { assert EntryOk(s, s.conns[s.lock.value].key); }
  }

  lemma WireStays<C>(s: Registry<C>, e: Event<C>)
    requires Inv(s) && Enabled(s, e)
    ensures WireOk(Step(s, e))
  {
    if e.Forward? {
      assert ConnOk(s, e.c);
    } else {
      KeysStay(s, e);
    }
  }

  lemma KeysStay<C>(s: Registry<C>, e: Event<C>)
    requires Enabled(s, e) && !e.Forward?
    ensures forall c :: c in s.conns ==> c in Step(s, e).conns && Step(s, e).conns[c].key == s.conns[c].key
    ensures s.wire <= Step(s, e).wire && forall i :: |s.wire| <= i < |Step(s, e).wire| ==> !Step(s, e).wire[i].Relayed?
  {
  }

  lemma StepKeeps<C>(s: Registry<C>, e: Event<C>)
    requires Inv(s) && Enabled(s, e)
    ensures Inv(Step(s, e))
  {
    hide EntryOk, ConnOk, LockOk, WireOk;
    var t := Step(s, e);
    forall key ensures EntryOk(t, key) { EntriesStay(s, e, key); }
    forall c | c in t.conns ensures ConnOk(t, c) {
      if e.Link? { LinkKeepsConn(s, e.c, c); } else { ConnsStay(s, e, c); }
    }
    LockStays(s, e);
    WireStays(s, e);
  }

  lemma {:induction false} RunKeeps<C>(s: Registry<C>, events: seq<Event<C>>)
    requires Inv(s) && LegalRun(s, events)
    ensures Inv(Run(s, events))
    decreases |events|
  {
    hide Step, Inv;
    if events != [] {
      StepKeeps(s, events[0]);
      RunKeeps(Step(s, events[0]), events[1..]);
    }
  }

  /** Link safety in every reachable registry, over every order of registrations, replacements, heartbeat
      closes, failed forwards and late unregistrations. */
  lemma LinkSafety<C>(events: seq<Event<C>>, c: C)
    requires LegalRun(Empty<C>(), events) && Open(Run(Empty<C>(), events), c)
    ensures ConnOk(Run(Empty<C>(), events), c)
  {
    RunKeeps(Empty<C>(), events);
  }

  /** At most one open registered connection per code and role. */
  lemma OneOpenPerKey<C>(events: seq<Event<C>>, c: C, d: C)
    requires LegalRun(Empty<C>(), events)
    requires Open(Run(Empty<C>(), events), c) && Open(Run(Empty<C>(), events), d)
    requires Run(Empty<C>(), events).conns[c].registered && Run(Empty<C>(), events).conns[d].registered
    requires Run(Empty<C>(), events).conns[c].key == Run(Empty<C>(), events).conns[d].key
    ensures c == d
  {
    RunKeeps(Empty<C>(), events);
    assert ConnOk(Run(Empty<C>(), events), c) && ConnOk(Run(Empty<C>(), events), d);
  }

  /** A registering connection becomes the entry for its key, and if any open connection of the same code and
      the other role is registered, the two are linked with each other and both are told. */
  lemma RegistrationPairs<C>(events: seq<Event<C>>, c: C, p: C)
    requires LegalRun(Empty<C>(), events)
    requires Enabled(Run(Empty<C>(), events), Link(c)) && Open(Run(Empty<C>(), events), c)
    requires p in Run(Empty<C>(), events).conns
    ensures var s := Run(Empty<C>(), events);
      var t := LinkStep(s, c);
      && s.conns[c].key in t.entries && t.entries[s.conns[c].key] == c && Open(t, c) && t.conns[c].registered
      && (Open(s, p) && s.conns[p].registered && s.conns[p].key == Opposite(s.conns[c].key) ==>
            && t.conns[c].peer == Some(p) && t.conns[p].peer == Some(c)
            && t.wire == s.wire + [Paired(c, p), Paired(p, c)])
  {
    RunKeeps(Empty<C>(), events);
    assert ConnOk(Run(Empty<C>(), events), p);
  }

  // ---------- where a frame goes ----------

  /** The open connection of the other role, of which there is only one. */
  ghost predicate IsTheOtherSide<C>(s: Registry<C>, c: C, p: C)
    requires c in s.conns
  {
    var key := Opposite(s.conns[c].key);
    && Open(s, p) && s.conns[p].registered && s.conns[p].key == key
    && forall d :: d in s.conns && Open(s, d) && s.conns[d].registered && s.conns[d].key == key ==> d == p
  }

  /** In every reachable registry a frame is passed on unchanged, to at most one connection: the only open
      one of the same code and the other role. */
  lemma FrameGoesToTheOtherSide<C>(events: seq<Event<C>>, c: C, frame: Frame)
    requires LegalRun(Empty<C>(), events) && c in Run(Empty<C>(), events).conns && frame != Heartbeat
    ensures var s := Run(Empty<C>(), events);
      var t := ForwardStep(s, c, frame);
      && t.conns == s.conns && t.entries == s.entries && t.lock == s.lock
      && (t.wire == s.wire || t.wire == s.wire + [NoPeer(c)]
          || exists p :: p in s.conns && IsTheOtherSide(s, c, p) && t.wire == s.wire + [Relayed(p, c, frame)])
  {
    var s := Run(Empty<C>(), events);
    RunKeeps(Empty<C>(), events);
    assert ConnOk(s, c);
    var peer := s.conns[c].peer;
    if peer.Some? && Open(s, peer.value) {
      var p := peer.value;
      forall d | d in s.conns && Open(s, d) && s.conns[d].registered && s.conns[d].key == Opposite(s.conns[c].key)
        ensures d == p
      {
        assert ConnOk(s, d) && ConnOk(s, p);
      }
      assert IsTheOtherSide(s, c, p);
    }
  }

  // ---------- mutual links ----------

  ghost predicate Mutual<C>(s: Registry<C>) {
    forall c :: c in s.conns && Open(s, c) && s.conns[c].peer.Some? ==> LinkedBack(s, c)
  }

  ghost predicate LinkedBack<C>(s: Registry<C>, c: C)
    requires c in s.conns && s.conns[c].peer.Some?
  {
    s.conns[c].peer.value in s.conns && s.conns[s.conns[c].peer.value].peer == Some(c)
  }

  /** The peer of c is open and already linked to another open connection: c was replaced. */
  predicate Severs<C(==)>(s: Registry<C>, c: C)
    requires c in s.conns
  {
    && s.conns[c].peer.Some? && Open(s, s.conns[c].peer.value)
    && s.conns[s.conns[c].peer.value].peer.Some?
    && s.conns[s.conns[c].peer.value].peer.value != c
    && Open(s, s.conns[s.conns[c].peer.value].peer.value)
  }

  /** Links stay mutual in every step except an unregistration, and in an unregistration exactly when it
      does not come from a replaced connection whose peer has moved on. */
  lemma MutualUnlessSevered<C>(s: Registry<C>, e: Event<C>)
    requires Inv(s) && Mutual(s) && Enabled(s, e)
    ensures Mutual(Step(s, e)) <==> !(e.Unregister? && Severs(s, e.c))
  {
    var t := Step(s, e);
    if e.Unregister? && Severs(s, e.c) {
      var p := s.conns[e.c].peer.value;
      var d := s.conns[p].peer.value;
      assert LinkedBack(s, p);
      assert d in t.conns && Open(t, d) && t.conns[d].peer == Some(p) && !LinkedBack(t, d);
    } else {
      forall c | c in t.conns && Open(t, c) && t.conns[c].peer.Some? ensures LinkedBack(t, c) {
        MutualFor(s, e, c);
      }
    }
  }

  lemma MutualFor<C>(s: Registry<C>, e: Event<C>, c: C)
    requires Inv(s) && Mutual(s) && Enabled(s, e) && !(e.Unregister? && Severs(s, e.c))
    requires c in Step(s, e).conns && Open(Step(s, e), c) && Step(s, e).conns[c].peer.Some?
    ensures LinkedBack(Step(s, e), c)
  {
    match e
    case Link(d) => MutualAfterLink(s, d, c);
    case Unregister(d) => MutualAfterUnregister(s, d, c);
    case _ =>
      if c in s.conns && s.conns[c].peer.Some? {
        assert ConnOk(s, c);
        if Open(s, c) { assert LinkedBack(s, c); }
      }
  }

  lemma MutualAfterUnregister<C>(s: Registry<C>, d: C, c: C)
    requires Inv(s) && Mutual(s) && d in s.conns && c in s.conns && !Severs(s, d)
    requires Open(UnregisterStep(s, d), c) && UnregisterStep(s, d).conns[c].peer.Some?
    ensures LinkedBack(UnregisterStep(s, d), c)
  {
    assert ConnOk(s, c) && ConnOk(s, d) && LinkedBack(s, c);
  }

  lemma MutualAfterLink<C>(s: Registry<C>, d: C, c: C)
    requires Inv(s) && Mutual(s) && Enabled(s, Link(d)) && c in s.conns
    requires Open(LinkStep(s, d), c) && LinkStep(s, d).conns[c].peer.Some?
    ensures LinkedBack(LinkStep(s, d), c)
  {
    assert ConnOk(s, c) && EntryOk(s, s.conns[d].key) && EntryOk(s, Opposite(s.conns[d].key));
    if s.conns[c].peer.Some? { assert LinkedBack(s, c) && ConnOk(s, s.conns[c].peer.value); }
  }

  /** Runs in which no replaced connection unregisters late keep every link mutual. */
  ghost predicate NeverSevers<C>(s: Registry<C>, events: seq<Event<C>>)
    requires LegalRun(s, events)
    decreases |events|
  {
    events == [] ||
      (!(events[0].Unregister? && Severs(s, events[0].c)) && NeverSevers(Step(s, events[0]), events[1..]))
  }

  lemma {:induction false} RunStaysMutual<C>(s: Registry<C>, events: seq<Event<C>>)
    requires Inv(s) && Mutual(s) && LegalRun(s, events) && NeverSevers(s, events)
    ensures Mutual(Run(s, events))
    decreases |events|
  {
    if events != [] {
      StepKeeps(s, events[0]);
      MutualUnlessSevered(s, events[0]);
      RunStaysMutual(Step(s, events[0]), events[1..]);
    }
  }
}
