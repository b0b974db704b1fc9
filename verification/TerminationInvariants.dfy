/** What every run of the termination ledger keeps: one retry chain per session, agreement
    between session and chain, and the five-way quorum. */
module TerminationInvariants {
  import opened Outcomes
  import opened TerminationContract
  import opened TextDigest
  import opened TerminationLedger

  /** The retry chain of every session, root first. */
  type Chains = map<Id, seq<Id>>

  ghost predicate Distinct(c: seq<Id>) {
    forall i, j :: 0 <= i < j < |c| ==> c[i] != c[j]
  }

  ghost predicate LinkAt(st: Store, sid: Id, c: seq<Id>, i: nat)
    requires i < |c|
  {
    && c[i] in st.terminations
    && var t := st.terminations[c[i]];
    && t.sessionId == sid
    && t.parent == (if i == 0 then None else Some(c[i - 1]))
    && t.child == (if i == |c| - 1 then None else Some(c[i + 1]))
    && (i < |c| - 1 ==> t.result == Partial || t.result == Timeout)
  }

  /** `c` lists the terminations of the session, each linked both ways to its neighbours, and
      every one but the leaf was given up on. */
  ghost predicate IsChain(st: Store, sid: Id, c: seq<Id>) {
    && Distinct(c)
    && (forall i :: 0 <= i < |c| ==> LinkAt(st, sid, c, i))
    && (forall tid :: tid in st.terminations && st.terminations[tid].sessionId == sid ==> tid in c)
  }

  /** The session state that the leaf's result stands for. */
  function StateOf(result: Outcome): SessionState {
    match result
    case Pending => Terminating
    case Partial => TerminationPartial
    case Timeout => TerminationTimeout
    case Complete => Terminated
  }

  ghost predicate Agrees(st: Store, sid: Id, c: seq<Id>)
    requires sid in st.sessions && IsChain(st, sid, c)
  {
    if c == [] then st.sessions[sid].state == Active
    else
      assert LinkAt(st, sid, c, |c| - 1);
      st.sessions[sid].state == StateOf(st.terminations[c[|c| - 1]].result)
  }

  /** One acknowledgement of a document is what its reports, or its inheritance, make it. */
  ghost predicate NameOk(t: Termination, name: AckName) {
    && name in t.acks
    && ReportsOn(t, name).Keys <= Reporters(name)
    && if name in t.inherited
       then t.acks[name] == AckConfirmed && name !in t.reports
       else t.acks[name] == Aggregate(name, ReportsOn(t, name))
  }

  /** What one termination document says about itself. */
  ghost predicate LocalOk(t: Termination) {
    && (forall name: AckName {:trigger NameOk(t, name)} :: NameOk(t, name))
    && (t.result == Complete <==> AllConfirmed(t.acks))
    && t.state == StateOf(t.result)
  }

  /** Its session exists and was registered for the same device, room and generation. */
  ghost predicate ContextOk(st: Store, t: Termination) {
    && t.sessionId in st.sessions
    && SameContext(st.sessions[t.sessionId], Context(t.sessionId, t.deviceId, t.roomId, t.generation))
  }

  /** A retry starts from exactly what its parent had confirmed when it was given up on. */
  ghost predicate ParentOk(st: Store, t: Termination) {
    match t.parent
    case None => t.inherited == {}
    case Some(p) =>
      && p in st.terminations
      && (st.terminations[p].result == Partial || st.terminations[p].result == Timeout)
      && t.inherited == ConfirmedNames(st.terminations[p])
  }

  ghost predicate RequestOk(st: Store, key: Digest, r: Request) {
    && r.terminationId in st.terminations
    && var t := st.terminations[r.terminationId];
    && t.payloadHash == r.payloadHash
    && t.operation == r.operation
    && key == RequestKey(t.sessionId, t.generation, t.requestId)
  }

  ghost predicate ChainsOk(st: Store, ch: Chains) {
    && ch.Keys == st.sessions.Keys
    && forall sid :: sid in st.sessions ==> IsChain(st, sid, ch[sid]) && Agrees(st, sid, ch[sid])
  }

  ghost predicate RecordOk(st: Store, tid: Id)
    requires tid in st.terminations
  {
    var t := st.terminations[tid];
    LocalOk(t) && ContextOk(st, t) && ParentOk(st, t)
  }

  ghost predicate RecordsOk(st: Store) {
    forall tid {:trigger RecordOk(st, tid)} :: tid in st.terminations ==> RecordOk(st, tid)
  }

  ghost predicate RequestsOk(st: Store) {
    forall key :: key in st.requests ==> RequestOk(st, key, st.requests[key])
  }

  ghost predicate Inv(st: Store, ch: Chains) {
    RecordsOk(st) && RequestsOk(st) && ChainsOk(st, ch)
  }

  // ---------- every transaction keeps the invariant ----------

  /** A step that touches the documents of one session only. */
  ghost predicate OnlySession(st: Store, st': Store, sid: Id) {
    && sid in st'.sessions
    && st'.sessions.Keys == st.sessions.Keys + {sid}
    && (forall other :: other in st.sessions && other != sid ==> st'.sessions[other] == st.sessions[other])
    && (forall tid :: tid in st.terminations && st.terminations[tid].sessionId != sid ==>
                        tid in st'.terminations && st'.terminations[tid] == st.terminations[tid])
    && (forall tid :: tid in st'.terminations && st'.terminations[tid].sessionId != sid ==>
                        tid in st.terminations && st.terminations[tid].sessionId != sid)
  }

  /** A session whose own documents a step leaves alone keeps its chain. */
  lemma ChainElsewhere(st: Store, st': Store, sid: Id, other: Id, c: seq<Id>)
    requires OnlySession(st, st', sid) && other != sid && other in st.sessions
    requires IsChain(st, other, c) && Agrees(st, other, c)
    ensures IsChain(st', other, c) && Agrees(st', other, c)
  {
    forall i | 0 <= i < |c| ensures LinkAt(st', other, c, i) {
      assert LinkAt(st, other, c, i);
    }
    if c != [] {
      assert LinkAt(st, other, c, |c| - 1);
    }
    hide LinkAt;
  }

  lemma ChainsStep(st: Store, st': Store, ch: Chains, sid: Id, c: seq<Id>)
    requires ChainsOk(st, ch) && OnlySession(st, st', sid)
    requires IsChain(st', sid, c) && Agrees(st', sid, c)
    ensures ChainsOk(st', ch[sid := c])
  {
    var ch' := ch[sid := c];
    forall other | other in st'.sessions && other != sid
      ensures IsChain(st', other, ch'[other]) && Agrees(st', other, ch'[other])
    {
      assert IsChain(st, other, ch[other]) && Agrees(st, other, ch[other]);
      hide IsChain, Agrees;
      ChainElsewhere(st, st', sid, other, ch[other]);
    }
    hide IsChain, Agrees;
    assert ch'.Keys == st'.sessions.Keys by { assert ch.Keys == st.sessions.Keys; }
  }

  /** A step that keeps every session's context, and everything a retry ever read from its parent. */
  ghost predicate Extends(st: Store, st': Store) {
    && (forall sid :: sid in st.sessions ==> sid in st'.sessions && SameSession(st.sessions[sid], st'.sessions[sid]))
    && (forall tid :: tid in st.terminations ==>
                        tid in st'.terminations && SameRequest(st.terminations[tid], st'.terminations[tid]))
    && (forall tid :: tid in st.terminations && st.terminations[tid].result != Pending ==>
                        st'.terminations[tid].result == st.terminations[tid].result
                        && st'.terminations[tid].acks == st.terminations[tid].acks)
  }

  predicate SameSession(s: Session, s': Session) {
    s' == s.(state := s'.state, updatedAt := s'.updatedAt)
  }

  lemma RecordCarriesOver(st: Store, st': Store, t: Termination)
    requires ContextOk(st, t) && ParentOk(st, t) && Extends(st, st')
    ensures ContextOk(st', t) && ParentOk(st', t)
  {
    if t.parent.Some? {
      assert ConfirmedNames(st'.terminations[t.parent.value]) == ConfirmedNames(st.terminations[t.parent.value]);
    }
  }

  /** Records an extending step did not touch stay consistent; the touched ones are given. */
  lemma RecordsStep(st: Store, st': Store, touched: set<Id>)
    requires RecordsOk(st) && Extends(st, st')
    requires forall tid :: tid in st'.terminations && tid !in touched ==>
                             tid in st.terminations && st'.terminations[tid] == st.terminations[tid]
    requires forall tid :: tid in touched && tid in st'.terminations ==> RecordOk(st', tid)
    ensures RecordsOk(st')
  {
    forall tid | tid in st'.terminations && tid !in touched
      ensures RecordOk(st', tid)
    {
      assert RecordOk(st, tid);
      RecordCarriesOver(st, st', st.terminations[tid]);
    }
  }

  lemma CreateScope(st: Store, context: Context, now: nat)
    requires RecordsOk(st) && context.sessionId !in st.sessions
    ensures var st' := CreateSession(st, context, now).store;
      && Extends(st, st') && OnlySession(st, st', context.sessionId) && st'.terminations == st.terminations
      && IsChain(st', context.sessionId, []) && Agrees(st', context.sessionId, [])
  {
    forall tid | tid in st.terminations ensures st.terminations[tid].sessionId != context.sessionId {
      assert RecordOk(st, tid);
    }
    hide RecordOk;
  }

  lemma CreateKeeps(st: Store, ch: Chains, context: Context, now: nat) returns (ch': Chains)
    requires Inv(st, ch)
    ensures Inv(CreateSession(st, context, now).store, ch')
  {
    var st' := CreateSession(st, context, now).store;
    ch' := ch;
    if context.sessionId !in st.sessions {
      ch' := ch[context.sessionId := []];
      CreateScope(st, context, now);
      assert st'.requests == st.requests;
      hide CreateSession, RecordOk, OnlySession, IsChain, Agrees, ChainsOk, RequestOk;
      RecordsStep(st, st', {});
      ChainsStep(st, st', ch, context.sessionId, []);
      RequestsCarryOver(st, st');
    }
  }

  /** Requests stay filed correctly while the documents they point to keep their identity. */
  lemma RequestsCarryOver(st: Store, st': Store)
    requires RequestsOk(st) && st.requests == st'.requests
    requires forall tid :: tid in st.terminations ==>
               tid in st'.terminations && SameRequest(st.terminations[tid], st'.terminations[tid])
    ensures RequestsOk(st')
  {
    forall key | key in st'.requests ensures RequestOk(st', key, st'.requests[key]) {
      assert RequestOk(st, key, st.requests[key]);
    }
  }

  /** The fields of a termination that no transaction ever changes. */
  predicate SameRequest(t: Termination, t': Termination) {
    t' == t.(child := t'.child, result := t'.result, state := t'.state, acks := t'.acks, reports := t'.reports,
             terminalAt := t'.terminalAt, updatedAt := t'.updatedAt)
  }

  // ---------- the first termination ----------

  /** What an accepted terminate does to the store. */
  ghost predicate BeginDoes(st: Store, st': Store, e: Event) {
    && e.BeginE? && e.freshId !in st.terminations && e.sessionId in st.sessions
    && var s := st.sessions[e.sessionId];
       && s.state == Active && e.sessionId == e.payload.sessionId && SameContext(s, e.payload)
       && st'.sessions == st.sessions[e.sessionId := s.(state := Terminating, updatedAt := e.now)]
       && st'.terminations == st.terminations[e.freshId := Termination(
            e.sessionId, s.deviceId, s.roomId, e.payload.generation, Terminate, e.requestId, e.hash,
            None, None, Pending, Terminating, InitialAcks(), {}, map[], None, e.now, e.now)]
       && st'.requests == st.requests[RequestKey(e.sessionId, e.payload.generation, e.requestId)
                                      := Request(e.freshId, e.hash, Terminate, e.now)]
  }

  lemma BeginEffect(st: Store, e: Event)
    requires e.BeginE? && Legal(st, e)
    ensures Apply(st, e).store == st || BeginDoes(st, Apply(st, e).store, e)
  {
    hide RequestKey;
  }

  lemma BeginKeeps(st: Store, ch: Chains, e: Event) returns (ch': Chains)
    requires Inv(st, ch) && e.BeginE? && Legal(st, e)
    ensures Inv(Apply(st, e).store, ch')
  {
    var st' := Apply(st, e).store;
    BeginEffect(st, e);
    hide Apply, RequestKey;
    ch' := ch;
    if st' != st {
      ch' := ch[e.sessionId := [e.freshId]];
      BeginScope(st, st', e);
      BeginRecords(st, st', e);
      BeginChain(st, st', ch, e);
      hide IsChain, Agrees, RecordsOk, OnlySession;
      ChainsStep(st, st', ch, e.sessionId, [e.freshId]);
      NewRequest(st, st', RequestKey(e.sessionId, e.payload.generation, e.requestId));
    }
  }

  lemma BeginScope(st: Store, st': Store, e: Event)
    requires RecordsOk(st) && BeginDoes(st, st', e)
    ensures Extends(st, st') && OnlySession(st, st', e.sessionId)
  {
    hide RecordOk, RequestKey;
  }

  lemma BeginRecords(st: Store, st': Store, e: Event)
    requires RecordsOk(st) && BeginDoes(st, st', e)
    ensures RecordsOk(st')
  {
    BeginScope(st, st', e);
    BegunRecordOk(st, st', e);
    hide RecordOk, Extends, RequestKey;
    RecordsStep(st, st', {e.freshId});
  }

  lemma BegunRecordOk(st: Store, st': Store, e: Event)
    requires BeginDoes(st, st', e)
    ensures RecordOk(st', e.freshId)
  {
    hide RequestKey;
    var t := st'.terminations[e.freshId];
    assert !AllConfirmed(InitialAcks()) by { assert InitialAcks()[BrainTurnsSealed] == AckPending; }
    assert InheritedAcks({}) == InitialAcks();
    FreshRecordOk(t);
  }

  lemma BeginChain(st: Store, st': Store, ch: Chains, e: Event)
    requires ChainsOk(st, ch) && BeginDoes(st, st', e)
    ensures IsChain(st', e.sessionId, [e.freshId]) && Agrees(st', e.sessionId, [e.freshId])
  {
    ActiveHasNoChain(st, ch, e.sessionId);
    hide RequestKey, ChainsOk;
    assert LinkAt(st', e.sessionId, [e.freshId], 0);
  }

  lemma ActiveHasNoChain(st: Store, ch: Chains, sid: Id)
    requires ChainsOk(st, ch) && sid in st.sessions && st.sessions[sid].state == Active
    ensures ch[sid] == [] && IsChain(st, sid, [])
  {
    assert IsChain(st, sid, ch[sid]) && Agrees(st, sid, ch[sid]);
  }

  // ---------- retry ----------

  /** What an accepted retry does to the store. */
  ghost predicate RetryDoes(st: Store, st': Store, e: Event) {
    && e.RetryE? && e.freshId !in st.terminations && e.sessionId in st.sessions && e.parentId in st.terminations
    && var s, p := st.sessions[e.sessionId], st.terminations[e.parentId];
       && p.sessionId == e.sessionId && (p.result == Partial || p.result == Timeout) && p.child == None
       && st'.sessions == st.sessions[e.sessionId := s.(state := Terminating, updatedAt := e.now)]
       && st'.terminations == st.terminations[e.freshId := Termination(
            e.sessionId, p.deviceId, p.roomId, p.generation, Retry, e.requestId, e.hash,
            Some(e.parentId), None, Pending, Terminating, InheritedAcks(ConfirmedNames(p)), ConfirmedNames(p), map[],
            None, e.now, e.now)][e.parentId := p.(child := Some(e.freshId), updatedAt := e.now)]
       && st'.requests == st.requests[RequestKey(e.sessionId, p.generation, e.requestId)
                                      := Request(e.freshId, e.hash, Retry, e.now)]
  }

  lemma RetryEffect(st: Store, e: Event)
    requires e.RetryE? && Legal(st, e)
    ensures Apply(st, e).store == st || RetryDoes(st, Apply(st, e).store, e)
  {
    hide RequestKey, InheritedAcks, ConfirmedNames;
  }

  lemma RetryKeeps(st: Store, ch: Chains, e: Event) returns (ch': Chains)
    requires Inv(st, ch) && e.RetryE? && Legal(st, e)
    ensures Inv(Apply(st, e).store, ch')
  {
    var st' := Apply(st, e).store;
    RetryEffect(st, e);
    hide Apply, RequestKey, InheritedAcks, ConfirmedNames;
    ch' := ch;
    if st' != st {
      ch' := ch[e.sessionId := ch[e.sessionId] + [e.freshId]];
      RetryScope(st, st', e);
      RetryRecords(st, st', e);
      RetryChain(st, st', ch, e);
      hide IsChain, Agrees, RecordsOk, OnlySession;
      ChainsStep(st, st', ch, e.sessionId, ch'[e.sessionId]);
      NewRequest(st, st', RequestKey(e.sessionId, st.terminations[e.parentId].generation, e.requestId));
    }
  }

  lemma RetryScope(st: Store, st': Store, e: Event)
    requires RetryDoes(st, st', e)
    ensures Extends(st, st') && OnlySession(st, st', e.sessionId)
  {
    RetryExtends(st, st', e);
    hide RequestKey, InheritedAcks, ConfirmedNames, Extends;
  }

  lemma RetryExtends(st: Store, st': Store, e: Event)
    requires RetryDoes(st, st', e)
    ensures Extends(st, st')
  {
    hide RequestKey, InheritedAcks, ConfirmedNames;
  }

  lemma RetryRecords(st: Store, st': Store, e: Event)
    requires RecordsOk(st) && RetryDoes(st, st', e)
    ensures RecordsOk(st')
  {
    RetryScope(st, st', e);
    assert RecordOk(st, e.parentId);
    RetriedParentOk(st, st', e);
    RetriedChildOk(st, st', e);
    hide RecordOk, Extends, OnlySession, RequestKey, InheritedAcks, ConfirmedNames;
    RecordsStep(st, st', {e.freshId, e.parentId});
  }

  lemma RetriedParentOk(st: Store, st': Store, e: Event)
    requires RetryDoes(st, st', e) && RecordOk(st, e.parentId)
    ensures RecordOk(st', e.parentId)
  {
    var parent := st.terminations[e.parentId];
    RetryScope(st, st', e);
    RecordCarriesOver(st, st', parent);
    hide RequestKey, InheritedAcks, ConfirmedNames;
    forall name: AckName ensures NameOk(st'.terminations[e.parentId], name) {
      assert NameOk(parent, name);
    }
  }

  lemma RetriedChildOk(st: Store, st': Store, e: Event)
    requires RetryDoes(st, st', e) && RecordOk(st, e.parentId)
    ensures RecordOk(st', e.freshId)
  {
    hide RequestKey;
    var parent := st.terminations[e.parentId];
    var t := st'.terminations[e.freshId];
    assert !AllConfirmed(t.acks) by {
      var name: AckName :| !(name in parent.acks && parent.acks[name] == AckConfirmed);
      assert t.acks[name] != AckConfirmed;
    }
    FreshRecordOk(t);
    assert ConfirmedNames(st'.terminations[e.parentId]) == ConfirmedNames(parent);
  }

  /** A retried termination is the leaf ... */
  lemma RetriedIsLeaf(st: Store, ch: Chains, e: Event)
    requires ChainsOk(st, ch) && e.RetryE? && e.sessionId in st.sessions && e.parentId in st.terminations
    requires st.terminations[e.parentId].sessionId == e.sessionId && st.terminations[e.parentId].child == None
    ensures var c := ch[e.sessionId]; c != [] && c[|c| - 1] == e.parentId
  {
    var c := ch[e.sessionId];
    assert IsChain(st, e.sessionId, c);
    var at :| 0 <= at < |c| && c[at] == e.parentId;
    assert LinkAt(st, e.sessionId, c, at);
  }

  /** ... and the child becomes the new leaf. */
  lemma RetryChain(st: Store, st': Store, ch: Chains, e: Event)
    requires ChainsOk(st, ch) && RetryDoes(st, st', e)
    ensures var c' := ch[e.sessionId] + [e.freshId];
            IsChain(st', e.sessionId, c') && Agrees(st', e.sessionId, c')
  {
    var c := ch[e.sessionId];
    assert IsChain(st, e.sessionId, c);
    RetriedIsLeaf(st, ch, e);
    hide ChainsOk, RetryDoes, IsChain, LinkAt, Distinct;
    RetryDistinct(st, e, c);
    forall i | 0 <= i <= |c| ensures LinkAt(st', e.sessionId, c + [e.freshId], i) { RetryLink(st, st', e, c, i); }
    RetryCovers(st, st', e, c);
  }

  lemma RetryDistinct(st: Store, e: Event, c: seq<Id>)
    requires e.RetryE? && e.freshId !in st.terminations && IsChain(st, e.sessionId, c)
    ensures Distinct(c + [e.freshId])
  {
    forall i | 0 <= i < |c| ensures c[i] != e.freshId { assert LinkAt(st, e.sessionId, c, i); }
  }

  lemma RetryLink(st: Store, st': Store, e: Event, c: seq<Id>, i: nat)
    requires RetryDoes(st, st', e) && IsChain(st, e.sessionId, c) && c != [] && c[|c| - 1] == e.parentId && i <= |c|
    ensures LinkAt(st', e.sessionId, c + [e.freshId], i)
  {
    hide RequestKey, InheritedAcks, ConfirmedNames;
    if i < |c| {
      assert LinkAt(st, e.sessionId, c, i);
      assert i < |c| - 1 ==> c[i] != c[|c| - 1];
    }
  }

  lemma RetryCovers(st: Store, st': Store, e: Event, c: seq<Id>)
    requires RetryDoes(st, st', e) && IsChain(st, e.sessionId, c) && Distinct(c + [e.freshId])
    requires forall i :: 0 <= i <= |c| ==> LinkAt(st', e.sessionId, c + [e.freshId], i)
    ensures IsChain(st', e.sessionId, c + [e.freshId]) && Agrees(st', e.sessionId, c + [e.freshId])
  {
    hide RequestKey, InheritedAcks, ConfirmedNames, Distinct;
    var c' := c + [e.freshId];
    forall tid | tid in st'.terminations && st'.terminations[tid].sessionId == e.sessionId ensures tid in c' {
      if tid == e.freshId { assert c'[|c|] == tid; } else { assert tid in c; }
    }
    assert LinkAt(st', e.sessionId, c', |c|);
  }

  // ---------- acknowledgements and giving up ----------

  /** A pending termination is the leaf of its session's chain. */
  lemma PendingIsLeaf(st: Store, ch: Chains, tid: Id)
    requires Inv(st, ch) && tid in st.terminations && st.terminations[tid].result == Pending
    ensures var sid := st.terminations[tid].sessionId;
            sid in st.sessions && ch[sid] != [] && ch[sid][|ch[sid]| - 1] == tid
  {
    assert RecordOk(st, tid);
    var sid := st.terminations[tid].sessionId;
    assert IsChain(st, sid, ch[sid]);
    var at :| 0 <= at < |ch[sid]| && ch[sid][at] == tid;
    assert LinkAt(st, sid, ch[sid], at);
  }

  /** A step on a pending leaf that leaves its links and inheritance alone. */
  ghost predicate LeafStep(st: Store, st': Store, tid: Id) {
    && tid in st.terminations && st.terminations[tid].result == Pending
    && var t := st.terminations[tid];
    && t.sessionId in st.sessions && t.sessionId in st'.sessions
    && st'.terminations.Keys == st.terminations.Keys
    && st' == Store(st.sessions[t.sessionId := st'.sessions[t.sessionId]],
                    st.terminations[tid := st'.terminations[tid]], st.requests)
    && SameSession(st.sessions[t.sessionId], st'.sessions[t.sessionId])
    && SameRequest(t, st'.terminations[tid]) && st'.terminations[tid].child == t.child
    && LocalOk(st'.terminations[tid])
    && (st'.sessions[t.sessionId].state == StateOf(st'.terminations[tid].result))
  }

  lemma LeafStepKeeps(st: Store, st': Store, ch: Chains, tid: Id)
    requires Inv(st, ch) && LeafStep(st, st', tid)
    ensures Inv(st', ch)
  {
    LeafScope(st, st', tid);
    LeafRecords(st, st', tid);
    LeafChains(st, st', ch, tid);
    hide RecordsOk, RequestOk, LocalOk, OnlySession, ChainsOk;
    RequestsCarryOver(st, st');
  }

  lemma LeafChains(st: Store, st': Store, ch: Chains, tid: Id)
    requires Inv(st, ch) && LeafStep(st, st', tid)
    ensures ChainsOk(st', ch)
  {
    var sid := st.terminations[tid].sessionId;
    LeafScope(st, st', tid);
    LeafChain(st, st', ch, tid);
    assert ch[sid := ch[sid]] == ch by { PendingIsLeaf(st, ch, tid); }
    hide RecordsOk, IsChain, Agrees, RequestsOk, LocalOk, OnlySession, Extends;
    ChainsStep(st, st', ch, sid, ch[sid]);
  }

  lemma LeafRecords(st: Store, st': Store, tid: Id)
    requires RecordsOk(st) && LeafStep(st, st', tid)
    ensures RecordsOk(st')
  {
    LeafScope(st, st', tid);
    assert RecordOk(st, tid);
    RecordCarriesOver(st, st', st.terminations[tid]);
    assert RecordOk(st', tid);
    RecordsStep(st, st', {tid});
  }

  lemma LeafScope(st: Store, st': Store, tid: Id)
    requires LeafStep(st, st', tid)
    ensures Extends(st, st') && OnlySession(st, st', st.terminations[tid].sessionId)
  {
  }

  lemma LeafChain(st: Store, st': Store, ch: Chains, tid: Id)
    requires Inv(st, ch) && LeafStep(st, st', tid)
    ensures var sid := st.terminations[tid].sessionId; IsChain(st', sid, ch[sid]) && Agrees(st', sid, ch[sid])
  {
    var sid := st.terminations[tid].sessionId;
    PendingIsLeaf(st, ch, tid);
    forall i | 0 <= i < |ch[sid]| ensures LinkAt(st', sid, ch[sid], i) {
      assert LinkAt(st, sid, ch[sid], i);
    }
  }

  /** A report that is taken is about a pending leaf, and about a name still open. */
  lemma AckedIsPending(st: Store, ch: Chains, e: Event)
    requires Inv(st, ch) && e.AckE? && Apply(st, e).store != st
    ensures e.terminationId in st.terminations
    ensures var t := st.terminations[e.terminationId];
      && LocalOk(t) && t.result == Pending && t.state == Terminating
      && e.name !in t.inherited && e.reporter in Reporters(e.name)
      && t.sessionId in st.sessions && st.sessions[t.sessionId].state == Terminating
  {
    PendingIsLeaf(st, ch, e.terminationId);
    var t := st.terminations[e.terminationId];
    assert Agrees(st, t.sessionId, ch[t.sessionId]);
    assert RecordOk(st, e.terminationId);
    hide Inv, ContextOk, ParentOk, IsChain, WithReport, NameOk;
  }

  lemma AckIsLeafStep(st: Store, ch: Chains, e: Event)
    requires Inv(st, ch) && e.AckE? && Apply(st, e).store != st
    ensures LeafStep(st, Apply(st, e).store, e.terminationId)
  {
    AckedIsPending(st, ch, e);
    var t := st.terminations[e.terminationId];
    WithReportOk(t, e.name, e.reporter, Report(e.verdict, e.errorCode, e.now), e.now);
    WithReportShape(t, e.name, e.reporter, Report(e.verdict, e.errorCode, e.now), e.now);
    hide Inv, LocalOk, WithReport, Reporters;
  }

  lemma WithReportShape(t: Termination, name: AckName, reporter: Reporter, report: Report, now: nat)
    requires t.result == Pending && t.state == Terminating
    ensures var t' := WithReport(t, name, reporter, report, now);
      && SameRequest(t, t') && t'.child == t.child
      && (t'.result == Pending || t'.result == Complete)
  {
  }

  lemma AckKeeps(st: Store, ch: Chains, e: Event)
    requires Inv(st, ch) && e.AckE?
    ensures Inv(Apply(st, e).store, ch)
  {
    if Apply(st, e).store != st {
      AckIsLeafStep(st, ch, e);
      hide Inv, LeafStep, Apply;
      LeafStepKeeps(st, Apply(st, e).store, ch, e.terminationId);
    }
  }

  lemma WithReportOk(t: Termination, name: AckName, reporter: Reporter, report: Report, now: nat)
    requires LocalOk(t) && t.result == Pending && name !in t.inherited && reporter in Reporters(name)
    ensures LocalOk(WithReport(t, name, reporter, report, now))
  {
    var t' := WithReport(t, name, reporter, report, now);
    forall other: AckName ensures NameOk(t', other) {
      assert NameOk(t, other);
    }
  }

  lemma ConcludeIsLeafStep(st: Store, e: Event)
    requires RecordsOk(st) && e.ConcludeE? && Apply(st, e).store != st
    ensures LeafStep(st, Apply(st, e).store, e.terminationId)
  {
    var st' := Apply(st, e).store;
    var t, t' := st.terminations[e.terminationId], st'.terminations[e.terminationId];
    assert RecordOk(st, e.terminationId);
    forall name: AckName ensures NameOk(t', name) {
      assert NameOk(t, name);
    }
    hide RecordsOk, ContextOk, ParentOk, NameOk;
  }

  lemma ConcludeKeeps(st: Store, ch: Chains, e: Event)
    requires Inv(st, ch) && e.ConcludeE?
    ensures Inv(Apply(st, e).store, ch)
  {
    if Apply(st, e).store != st {
      ConcludeIsLeafStep(st, e);
      hide RecordsOk, LeafStep, Apply, RequestsOk, ChainsOk;
      LeafStepKeeps(st, Apply(st, e).store, ch, e.terminationId);
    }
  }

  lemma NewRequest(st: Store, st': Store, key: Digest)
    requires RequestsOk(st) && key in st'.requests && st'.requests == st.requests[key := st'.requests[key]]
    requires forall tid :: tid in st.terminations ==>
               tid in st'.terminations && SameRequest(st.terminations[tid], st'.terminations[tid])
    requires RequestOk(st', key, st'.requests[key])
    ensures RequestsOk(st')
  {
    forall k | k in st'.requests ensures RequestOk(st', k, st'.requests[k]) {
      if k != key { assert RequestOk(st, k, st.requests[k]); }
    }
  }

  lemma FreshRecordOk(t: Termination)
    requires t.reports == map[] && t.result == Pending && t.state == Terminating
    requires t.acks == InheritedAcks(t.inherited)
    requires !AllConfirmed(t.acks)
    ensures LocalOk(t)
  {
    forall name: AckName ensures NameOk(t, name) {
      var who :| who in Reporters(name);
      assert Aggregate(name, map[]) == AckPending;
    }
  }
}
