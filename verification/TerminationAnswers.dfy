/** What the transactions answer, told by the events before them: which context a session has, when a request
    starts a termination, and what each document was made of (deploy/trtc-sign/termination-store.js:57-154). */
module TerminationAnswers {
  import opened Outcomes
  import opened TerminationContract
  import opened TerminationLedger
  import opened TerminationInvariants
  import opened TerminationTheorems
  import opened AckHistory

  // ---------- sessions ----------

  /** Who registered the session first, and when. */
  ghost function FirstCreate(events: seq<Event>, sid: Id): (first: Option<Event>)
    ensures first.Some? ==> first.value.CreateE? && first.value.context.sessionId == sid
  {
    if events == [] then None
    else
      var earlier, e := FirstCreate(events[..|events| - 1], sid), events[|events| - 1];
      if earlier.None? && e.CreateE? && e.context.sessionId == sid then Some(e) else earlier
  }

  ghost predicate RegisteredBy(st: Store, sid: Id, first: Option<Event>) {
    && (sid in st.sessions <==> first.Some?)
    && (sid in st.sessions && first.Some? && first.value.CreateE? ==>
          var s, context := st.sessions[sid], first.value.context;
          && s.deviceId == context.deviceId && s.roomId == context.roomId && s.generation == context.generation
          && s.createdAt == first.value.now)
  }

  lemma RegisteredStep(st: Store, e: Event, sid: Id, first: Option<Event>)
    requires Legal(st, e) && RegisteredBy(st, sid, first)
    ensures RegisteredBy(Apply(st, e).store, sid,
                         if first.None? && e.CreateE? && e.context.sessionId == sid then Some(e) else first)
  {
    if e.BeginE? {
      BeginEffect(st, e);
      hide Apply, InitialAcks, RequestKey;
    } else if e.RetryE? {
      RetryEffect(st, e);
      hide Apply, InheritedAcks, ConfirmedNames, RequestKey;
    } else {
      hide WithReport, Reporters;
    }
  }

  /** In every reachable store the sessions on file are those registered, each for the device, room and
      generation it was first registered for, and since then. */
  lemma {:induction false} SessionIsFirstCreate(events: seq<Event>, sid: Id)
    requires LegalRun(EMPTY, events)
    ensures RegisteredBy(Run(EMPTY, events), sid, FirstCreate(events, sid))
    decreases |events|
  {
    if events != [] {
      var before, e := events[..|events| - 1], events[|events| - 1];
      RunAppend(EMPTY, events);
      SessionIsFirstCreate(before, sid);
      hide Apply, Legal, RegisteredBy;
      RegisteredStep(Run(EMPTY, before), e, sid, FirstCreate(before, sid));
    }
  }

  /** Registering again is answered with the document on file exactly when device, room and generation are those
      of the first registration, and refused with 40916 otherwise; neither changes anything. The first
      registration files an ACTIVE session. */
  lemma CreateAnswers(events: seq<Event>, context: Context, now: nat)
    requires LegalRun(EMPTY, events)
    ensures var st, first := Run(EMPTY, events), FirstCreate(events, context.sessionId);
      var step := Apply(st, CreateE(context, now));
      && (first.Some? ==>
            && step.store == st && context.sessionId in st.sessions
            && step.reply == if first.value.context == context then Ok(OfSession(st.sessions[context.sessionId]))
                             else Err(40916))
      && (first.None? ==>
            && context.sessionId in step.store.sessions
            && step.reply == Ok(OfSession(step.store.sessions[context.sessionId]))
            && step.store.sessions[context.sessionId].state == Active)
  {
    SessionIsFirstCreate(events, context.sessionId);
  }

  // ---------- terminate ----------

  /** A terminate starts a termination exactly when the session was first registered for the context it names,
      no termination of the session is on file, and its key is new. Otherwise nothing changes, and the answer is
      40402 for an unknown session, 40916 for another context, and for a new key on a session that has
      terminations. */
  lemma TerminateStartsIff(events: seq<Event>, e: Event)
    requires LegalRun(EMPTY, events) && e.BeginE? && Legal(Run(EMPTY, events), e)
    ensures var st, first := Run(EMPTY, events), FirstCreate(events, e.sessionId);
      var step := Apply(st, e);
      var key := RequestKey(e.sessionId, e.payload.generation, e.requestId);
      var unused := forall tid :: tid in st.terminations ==> st.terminations[tid].sessionId != e.sessionId;
      && (e.freshId in step.store.terminations
          <==> first.Some? && first.value.context == e.payload && key !in st.requests && unused)
      && (e.freshId !in step.store.terminations ==> step.store == st)
      && (first.None? ==> step.reply == Err(40402))
      && (first.Some? && first.value.context != e.payload ==> step.reply == Err(40916))
      && (first.Some? && first.value.context == e.payload && key !in st.requests && !unused ==>
            step.reply == Err(40916))
  {
    var st := Run(EMPTY, events);
    SessionIsFirstCreate(events, e.sessionId);
    var first := FirstCreate(events, e.sessionId);
    if e.sessionId in st.sessions { UnusedIffActive(events, e.sessionId); }
    ContextOfFirst(st, e, first);
    hide RegisteredBy, LegalRun, Run, RequestKey, InitialAcks, FirstCreate;
    BeginCases(st, e);
  }

  lemma UnusedIffActive(events: seq<Event>, sid: Id)
    requires LegalRun(EMPTY, events) && sid in Run(EMPTY, events).sessions
    ensures var st := Run(EMPTY, events);
      st.sessions[sid].state == Active
      <==> forall tid :: tid in st.terminations ==> st.terminations[tid].sessionId != sid
  {
    var st := Run(EMPTY, events);
    ChainShapeAndAgreement(st, sid);
    var c :| IsChain(st, sid, c) && StateTellsResults(st, sid, c);
  }

  lemma ContextOfFirst(st: Store, e: Event, first: Option<Event>)
    requires e.BeginE? && RegisteredBy(st, e.sessionId, first)
    requires first.Some? ==> first.value.CreateE? && first.value.context.sessionId == e.sessionId
    ensures first.None? ==> e.sessionId !in st.sessions
    ensures first.Some? ==> e.sessionId in st.sessions
    ensures first.Some? ==>
      (first.value.context == e.payload
       <==> e.sessionId == e.payload.sessionId && SameContext(st.sessions[e.sessionId], e.payload))
  {
  }

  lemma BeginCases(st: Store, e: Event)
    requires e.BeginE? && Legal(st, e)
    ensures var step := Apply(st, e);
      var key := RequestKey(e.sessionId, e.payload.generation, e.requestId);
      if e.sessionId !in st.sessions then step == Step(Err(40402), st)
      else if e.sessionId != e.payload.sessionId || !SameContext(st.sessions[e.sessionId], e.payload)
      then step == Step(Err(40916), st)
      else if key in st.requests then step.store == st
      else if st.sessions[e.sessionId].state != Active then step == Step(Err(40916), st)
      else e.freshId in step.store.terminations
  {
    hide RequestKey, InitialAcks;
  }

  // ---------- retry ----------

  /** The reason that fits how the parent ended. */
  predicate ReasonFits(result: Outcome, reason: RetryReason) {
    (result == Partial && reason == RetryFailedAcknowledgements) || (result == Timeout && reason == RetryTimeout)
  }

  /** A retry starts a termination exactly when its parent is a termination of that session with no retry yet
      that ended the way the reason says, and its key is new: the session's own state adds nothing. Otherwise
      nothing changes, and the answer is 40403 for an unknown parent and 40913 for a new key. */
  lemma RetryStartsIff(st: Store, e: Event)
    requires Reachable(st) && e.RetryE? && Legal(st, e)
    ensures var step := Apply(st, e);
      var known := e.parentId in st.terminations && st.terminations[e.parentId].sessionId == e.sessionId;
      && (e.freshId in step.store.terminations
          <==> && known && RequestKey(e.sessionId, st.terminations[e.parentId].generation, e.requestId) !in st.requests
               && st.terminations[e.parentId].child == None
               && ReasonFits(st.terminations[e.parentId].result, e.reason))
      && (e.freshId !in step.store.terminations ==> step.store == st)
      && (!known ==> step.reply == Err(40403))
      && (known && e.freshId !in step.store.terminations ==>
            RequestKey(e.sessionId, st.terminations[e.parentId].generation, e.requestId) in st.requests
            || step.reply == Err(40913))
  {
    if e.parentId in st.terminations && st.terminations[e.parentId].sessionId == e.sessionId
       && st.terminations[e.parentId].child == None {
      var ch := ReachableInv(st);
      LeafStateFits(st, ch, e.parentId);
    }
    hide Reachable, RequestKey, InheritedAcks, ConfirmedNames;
    RetryCases(st, e);
  }

  lemma RetryCases(st: Store, e: Event)
    requires e.RetryE? && Legal(st, e)
    ensures var step := Apply(st, e);
      var known := e.parentId in st.terminations && st.terminations[e.parentId].sessionId == e.sessionId;
      if !known then step == Step(Err(40403), st)
      else if RequestKey(e.sessionId, st.terminations[e.parentId].generation, e.requestId) in st.requests
      then step.store == st
      else if !Retryable(st, st.terminations[e.parentId], e.sessionId, e.reason) then step == Step(Err(40913), st)
      else e.freshId in step.store.terminations
  {
    hide RequestKey, InheritedAcks, ConfirmedNames, Retryable;
  }

  /** A termination without a retry is the leaf, and the session state says how it ended. */
  lemma LeafStateFits(st: Store, ch: Chains, tid: Id)
    requires Inv(st, ch) && tid in st.terminations && st.terminations[tid].child == None
    ensures var t := st.terminations[tid];
      && t.sessionId in st.sessions
      && (t.result == Partial ==> st.sessions[t.sessionId].state == TerminationPartial)
      && (t.result == Timeout ==> st.sessions[t.sessionId].state == TerminationTimeout)
  {
    assert RecordOk(st, tid);
    var sid := st.terminations[tid].sessionId;
    assert IsChain(st, sid, ch[sid]) && Agrees(st, sid, ch[sid]);
    var at :| 0 <= at < |ch[sid]| && ch[sid][at] == tid;
    assert LinkAt(st, sid, ch[sid], at);
  }

  // ---------- documents ----------

  /** The request that made the document. */
  ghost function MadeBy(events: seq<Event>, tid: Id): Option<Event> {
    if events == [] then None
    else
      var before, e := events[..|events| - 1], events[|events| - 1];
      var st := Run(EMPTY, before);
      if tid !in st.terminations && tid in Apply(st, e).store.terminations then Some(e) else MadeBy(before, tid)
  }

  /** A document says which request made it. */
  ghost predicate TellsItsRequest(st: Store, tid: Id, made: Option<Event>) {
    && (tid in st.terminations <==> made.Some?)
    && (made.Some? ==> (made.value.BeginE? || made.value.RetryE?) && made.value.freshId == tid)
    && (tid in st.terminations && made.Some? && (made.value.BeginE? || made.value.RetryE?) ==>
          var t, e := st.terminations[tid], made.value;
          && t.sessionId == e.sessionId && t.requestId == e.requestId && t.payloadHash == e.hash
          && t.createdAt == e.now
          && t.operation == (if e.BeginE? then Terminate else Retry)
          && t.parent == (if e.BeginE? then None else Some(e.parentId)))
  }

  lemma MadeStep(st: Store, e: Event, tid: Id, made: Option<Event>)
    requires Legal(st, e) && TellsItsRequest(st, tid, made)
    ensures TellsItsRequest(Apply(st, e).store, tid,
                            if tid !in st.terminations && tid in Apply(st, e).store.terminations then Some(e) else made)
  {
    StepPersists(st, e);
    if e.BeginE? {
      BeginEffect(st, e);
    } else if e.RetryE? {
      RetryEffect(st, e);
    } else {
      NothingNew(st, e);
    }
    hide Apply, Legal, RequestKey, InitialAcks, InheritedAcks, ConfirmedNames, SameAck, FilesPersist;
  }

  lemma NothingNew(st: Store, e: Event)
    requires !e.BeginE? && !e.RetryE?
    ensures Apply(st, e).store.terminations.Keys == st.terminations.Keys
  {
  }

  /** In every reachable store a termination belongs to the session, request id, payload and parent of the
      accepted request that made it, and was made then. Its device, room and generation are those of the
      first registration of its session. */
  lemma {:induction false} DocumentTellsItsRequest(events: seq<Event>, tid: Id)
    requires LegalRun(EMPTY, events)
    ensures TellsItsRequest(Run(EMPTY, events), tid, MadeBy(events, tid))
    decreases |events|
  {
    if events == [] {
    } else {
      var before, e := events[..|events| - 1], events[|events| - 1];
      RunAppend(EMPTY, events);
      DocumentTellsItsRequest(before, tid);
      hide Apply, Legal, TellsItsRequest;
      MadeStep(Run(EMPTY, before), e, tid, MadeBy(before, tid));
    }
  }

  lemma DocumentTellsItsContext(events: seq<Event>, tid: Id)
    requires LegalRun(EMPTY, events) && tid in Run(EMPTY, events).terminations
    ensures var t := Run(EMPTY, events).terminations[tid];
      var first := FirstCreate(events, t.sessionId);
      first.Some? && first.value.context == Context(t.sessionId, t.deviceId, t.roomId, t.generation)
  {
    var st := Run(EMPTY, events);
    var ch := RunKeeps(EMPTY, map[], events);
    assert RecordOk(st, tid);
    SessionIsFirstCreate(events, st.terminations[tid].sessionId);
  }

  /** What is new or different in the second store carries this time. */
  ghost predicate Stamped(st: Store, st': Store, now: nat) {
    && (forall sid :: sid in st'.sessions && (sid in st.sessions ==> st'.sessions[sid] != st.sessions[sid]) ==>
          st'.sessions[sid].updatedAt == now)
    && (forall tid :: tid in st'.terminations
                      && (tid in st.terminations ==> st'.terminations[tid] != st.terminations[tid]) ==>
          st'.terminations[tid].updatedAt == now)
  }

  lemma BeginStamps(st: Store, st': Store, e: Event)
    requires BeginDoes(st, st', e)
    ensures Stamped(st, st', e.now)
  {
    hide RequestKey, InitialAcks;
  }

  lemma RetryStamps(st: Store, st': Store, e: Event)
    requires RetryDoes(st, st', e)
    ensures Stamped(st, st', e.now)
  {
    hide RequestKey, InheritedAcks, ConfirmedNames;
  }

  lemma AckStamps(st: Store, e: Event)
    requires e.AckE?
    ensures Stamped(st, Apply(st, e).store, e.now)
  {
    hide Aggregate, AllConfirmed, Reporters;
  }

  /** Whatever a transaction writes carries the time of the transaction. */
  lemma WritesAreStamped(st: Store, e: Event)
    requires Legal(st, e)
    ensures Stamped(st, Apply(st, e).store, e.now)
  {
    var st' := Apply(st, e).store;
    if e.BeginE? {
      BeginEffect(st, e);
      assert st' == st ==> Stamped(st, st', e.now);
      hide Apply, BeginDoes, Stamped;
      if st' != st { BeginStamps(st, st', e); }
    } else if e.RetryE? {
      RetryEffect(st, e);
      assert st' == st ==> Stamped(st, st', e.now);
      hide Apply, RetryDoes, Stamped;
      if st' != st { RetryStamps(st, st', e); }
    } else if e.AckE? {
      AckStamps(st, e);
      hide Apply, Stamped;
    }
  }
}
