/** Main results about the termination ledger, for every store a run of transactions can reach. */
module TerminationTheorems {
  import opened Outcomes
  import opened TerminationContract
  import opened TerminationLedger
  import opened TerminationInvariants

  lemma StepKeeps(st: Store, ch: Chains, e: Event) returns (ch': Chains)
    requires Inv(st, ch) && Legal(st, e)
    ensures Inv(Apply(st, e).store, ch')
  {
    match e
    case CreateE(context, now) => ch' := CreateKeeps(st, ch, context, now);
    case BeginE(_, _, _, _, _, _) => ch' := BeginKeeps(st, ch, e);
    case RetryE(_, _, _, _, _, _, _) => ch' := RetryKeeps(st, ch, e);
    case AckE(_, _, _, _, _, _, _) => AckKeeps(st, ch, e); ch' := ch;
    case ConcludeE(_, _, _) => ConcludeKeeps(st, ch, e); ch' := ch;
  }

  lemma {:induction false} RunKeeps(st: Store, ch: Chains, events: seq<Event>) returns (ch': Chains)
    requires Inv(st, ch) && LegalRun(st, events)
    ensures Inv(Run(st, events), ch')
    decreases |events|
  {
    ch' := ch;
    if events != [] {
      ch' := StepKeeps(st, ch, events[0]);
      ch' := RunKeeps(Apply(st, events[0]).store, ch', events[1..]);
    }
  }

  /** Every store that legal transactions can produce from the empty collections. */
  ghost predicate Reachable(st: Store) {
    exists events :: LegalRun(EMPTY, events) && Run(EMPTY, events) == st
  }

  lemma ReachableInv(st: Store) returns (ch: Chains)
    requires Reachable(st)
    ensures Inv(st, ch)
  {
    var events :| LegalRun(EMPTY, events) && Run(EMPTY, events) == st;
    ch := RunKeeps(EMPTY, map[], events);
  }

  // ---------- chain shape and agreement ----------

  /** A session has one retry chain: its order is forced by the documents. */
  lemma ChainIsUnique(st: Store, sid: Id, c: seq<Id>, d: seq<Id>)
    requires IsChain(st, sid, c) && IsChain(st, sid, d)
    ensures c == d
  {
    if |c| <= |d| { PrefixOf(st, sid, c, d, |c|); LengthsAgree(st, sid, c, d); }
    else { PrefixOf(st, sid, d, c, |d|); LengthsAgree(st, sid, d, c); }
  }

  lemma {:induction false} PrefixOf(st: Store, sid: Id, c: seq<Id>, d: seq<Id>, n: nat)
    requires IsChain(st, sid, c) && IsChain(st, sid, d) && n <= |c| <= |d|
    ensures c[..n] == d[..n]
  {
    if n > 0 {
      PrefixOf(st, sid, c, d, n - 1);
      assert LinkAt(st, sid, c, n - 1) && LinkAt(st, sid, d, n - 1);
      if n == 1 {
        var at :| 0 <= at < |d| && d[at] == c[0];
        assert LinkAt(st, sid, d, at);
      } else {
        assert c[n - 2] == c[..n - 1][n - 2] == d[..n - 1][n - 2] == d[n - 2];
        assert LinkAt(st, sid, c, n - 2) && LinkAt(st, sid, d, n - 2);
      }
      assert c[..n] == c[..n - 1] + [c[n - 1]] && d[..n] == d[..n - 1] + [d[n - 1]];
    }
  }

  lemma LengthsAgree(st: Store, sid: Id, c: seq<Id>, d: seq<Id>)
    requires IsChain(st, sid, c) && IsChain(st, sid, d) && |c| <= |d| && c == d[..|c|]
    ensures c == d
  {
    assert c != [] ==> LinkAt(st, sid, c, |c| - 1) && LinkAt(st, sid, d, |c| - 1);
    assert d != [] ==> LinkAt(st, sid, d, 0);
    assert d == [] || d[0] in c;
    assert |c| == |d|;
    assert d[..|c|] == d;
  }

  /** What the session state tells about the documents of its chain. */
  ghost predicate StateTellsResults(st: Store, sid: Id, c: seq<Id>)
    requires sid in st.sessions
  {
    var state := st.sessions[sid].state;
    && (state == Active <==> c == [])
    && (state == Active <==> forall tid :: tid in st.terminations ==> st.terminations[tid].sessionId != sid)
    && (forall i :: 0 <= i < |c| ==>
          && c[i] in st.terminations
          && (st.terminations[c[i]].parent == None <==> i == 0)
          && (st.terminations[c[i]].result == Pending <==> i == |c| - 1 && state == Terminating)
          && (st.terminations[c[i]].result == Complete <==> i == |c| - 1 && state == Terminated))
  }

  lemma LeafTells(st: Store, sid: Id, c: seq<Id>)
    requires sid in st.sessions && IsChain(st, sid, c) && Agrees(st, sid, c)
    ensures StateTellsResults(st, sid, c)
  {
    assert c != [] ==> LinkAt(st, sid, c, 0) && LinkAt(st, sid, c, |c| - 1);
    forall i | 0 <= i < |c|
      ensures c[i] in st.terminations && (st.terminations[c[i]].parent == None <==> i == 0)
      ensures st.terminations[c[i]].result == Pending <==> i == |c| - 1 && st.sessions[sid].state == Terminating
      ensures st.terminations[c[i]].result == Complete <==> i == |c| - 1 && st.sessions[sid].state == Terminated
    {
      assert LinkAt(st, sid, c, i);
    }
  }

  /** In every reachable store each session has exactly one chain, which holds all its terminations,
      and the session state says exactly what the results along the chain are. */
  lemma ChainShapeAndAgreement(st: Store, sid: Id)
    requires Reachable(st) && sid in st.sessions
    ensures exists c :: IsChain(st, sid, c) && StateTellsResults(st, sid, c)
    ensures forall c, d :: IsChain(st, sid, c) && IsChain(st, sid, d) ==> c == d
  {
    var ch := ReachableInv(st);
    LeafTells(st, sid, ch[sid]);
    forall c, d | IsChain(st, sid, c) && IsChain(st, sid, d) ensures c == d { ChainIsUnique(st, sid, c, d); }
  }

  // ---------- quorum ----------

  /** Every reporter the contract lists for this name has a confirmed report in this document. */
  ghost predicate QuorumAt(t: Termination, name: AckName) {
    forall r :: r in Reporters(name) ==> r in ReportsOn(t, name) && ReportsOn(t, name)[r].verdict == Confirmed
  }

  /** A name a document did not inherit is confirmed exactly by its own quorum. */
  lemma QuorumConfirms(t: Termination, name: AckName)
    requires LocalOk(t)
    ensures name !in t.inherited ==> name in t.acks && (t.acks[name] == AckConfirmed <==> QuorumAt(t, name))
    ensures name in t.inherited ==> !QuorumAt(t, name)
  {
    assert NameOk(t, name);
    var who :| who in Reporters(name);
  }

  /** Some document of the list holds the quorum of this name. */
  ghost predicate HoldsQuorum(st: Store, c: seq<Id>, name: AckName) {
    exists i :: 0 <= i < |c| && c[i] in st.terminations && QuorumAt(st.terminations[c[i]], name)
  }

  /** Up to position `i` of the chain, a name is confirmed iff some document holds its quorum. */
  lemma {:induction false} ConfirmedUpTo(st: Store, sid: Id, c: seq<Id>, name: AckName, i: nat)
    requires RecordsOk(st) && IsChain(st, sid, c) && i < |c| && LinkAt(st, sid, c, i)
    ensures name in st.terminations[c[i]].acks
    ensures st.terminations[c[i]].acks[name] == AckConfirmed
            <==> HoldsQuorum(st, c[..i + 1], name)
  {
    var t := st.terminations[c[i]];
    DocumentTells(st, c[i], name);
    QuorumOfOneMore(st, c, i, name);
    if i > 0 {
      assert LinkAt(st, sid, c, i - 1);
      ConfirmedUpTo(st, sid, c, name, i - 1);
      InheritsFromParent(st, c[i], name);
      hide HoldsQuorum, QuorumAt, RecordsOk, IsChain;
    } else {
      InheritsFromParent(st, c[i], name);
      hide RecordsOk, IsChain, QuorumAt;
      assert c[..0] == [];
    }
  }

  /** What one document says about a name. */
  lemma DocumentTells(st: Store, tid: Id, name: AckName)
    requires RecordsOk(st) && tid in st.terminations
    ensures var t := st.terminations[tid];
      && name in t.acks
      && (name !in t.inherited ==> (t.acks[name] == AckConfirmed <==> QuorumAt(t, name)))
      && (name in t.inherited ==> t.acks[name] == AckConfirmed && !QuorumAt(t, name))
  {
    assert RecordOk(st, tid) && NameOk(st.terminations[tid], name);
    QuorumConfirms(st.terminations[tid], name);
  }

  predicate IsConfirmed(t: Termination, name: AckName) {
    name in t.acks && t.acks[name] == AckConfirmed
  }

  /** A name is inherited exactly when the parent had it confirmed. */
  lemma InheritsFromParent(st: Store, tid: Id, name: AckName)
    requires RecordsOk(st) && tid in st.terminations
    ensures var t := st.terminations[tid];
      && (t.parent == None ==> name !in t.inherited)
      && (t.parent.Some? ==> t.parent.value in st.terminations)
      && (t.parent.Some? ==> (name in t.inherited <==> IsConfirmed(st.terminations[t.parent.value], name)))
  {
    assert RecordOk(st, tid);
  }

  lemma QuorumOfOneMore(st: Store, c: seq<Id>, i: nat, name: AckName)
    requires i < |c| && c[i] in st.terminations
    ensures HoldsQuorum(st, c[..i + 1], name)
       <==> HoldsQuorum(st, c[..i], name) || QuorumAt(st.terminations[c[i]], name)
  {
    hide QuorumAt;
    var more, less := c[..i + 1], c[..i];
    assert more[i] == c[i] && forall j :: 0 <= j < i ==> more[j] == less[j];
    if HoldsQuorum(st, less, name) {
      var j :| 0 <= j < |less| && less[j] in st.terminations && QuorumAt(st.terminations[less[j]], name);
      assert more[j] == less[j];
    }
  }

  /** The five-way quorum: a session is TERMINATED exactly when, for each of the five names, some
      termination of its retry chain holds confirmed reports from every reporter of that name. */
  lemma FiveWayQuorum(st: Store, sid: Id, c: seq<Id>)
    requires Reachable(st) && sid in st.sessions && IsChain(st, sid, c)
    ensures st.sessions[sid].state == Terminated
            <==> forall name: AckName :: HoldsQuorum(st, c, name)
  {
    var ch := ReachableInv(st);
    ChainIsUnique(st, sid, c, ch[sid]);
    assert Agrees(st, sid, c);
    hide Reachable, ChainsOk, HoldsQuorum;
    if c != [] {
      var leaf := |c| - 1;
      assert LinkAt(st, sid, c, leaf);
      assert RecordOk(st, c[leaf]);
      var acks := st.terminations[c[leaf]].acks;
      forall name: AckName
        ensures name in acks && (acks[name] == AckConfirmed <==> HoldsQuorum(st, c, name))
      {
        ConfirmedUpTo(st, sid, c, name, leaf);
        assert c[..leaf + 1] == c;
      }
    } else {
      NoQuorumInNothing(st, BrainTurnsSealed);
    }
  }

  lemma NoQuorumInNothing(st: Store, name: AckName)
    ensures !HoldsQuorum(st, [], name)
  {
  }

  // ---------- what a run cannot undo ----------

  predicate SameAck(t: Termination, t': Termination, name: AckName) {
    && (name in t.acks <==> name in t'.acks) && (name in t.acks && name in t'.acks ==> t'.acks[name] == t.acks[name])
    && ReportsOn(t', name) == ReportsOn(t, name)
  }

  /** What later transactions may do to a termination document: a finished one only learns its child,
      a complete one is final, and inherited acknowledgements are never altered. */
  ghost predicate DocPersists(t: Termination, t': Termination) {
    && SameRequest(t, t')
    && (t.result != Pending ==> t' == t.(child := t'.child, updatedAt := t'.updatedAt))
    && (t.result == Complete ==> t' == t)
    && (forall name {:trigger SameAck(t, t', name)} :: name in t.inherited ==> SameAck(t, t', name))
  }

  ghost predicate DocsPersist(st: Store, st': Store) {
    forall tid :: tid in st.terminations ==>
      tid in st'.terminations && DocPersists(st.terminations[tid], st'.terminations[tid])
  }

  /** Sessions keep their context and requests stay on file. */
  ghost predicate FilesPersist(st: Store, st': Store) {
    && (forall sid :: sid in st.sessions ==> sid in st'.sessions && SameSession(st.sessions[sid], st'.sessions[sid]))
    && (forall key :: key in st.requests ==> key in st'.requests && st'.requests[key] == st.requests[key])
  }

  /** A terminated session is never written again. */
  lemma TerminatedIsLeftAlone(st: Store, ch: Chains, e: Event)
    requires Inv(st, ch) && Legal(st, e)
    ensures forall sid :: sid in st.sessions && st.sessions[sid].state == Terminated ==>
              sid in Apply(st, e).store.sessions && Apply(st, e).store.sessions[sid] == st.sessions[sid]
  {
    forall sid | sid in st.sessions && st.sessions[sid].state == Terminated
      ensures sid in Apply(st, e).store.sessions && Apply(st, e).store.sessions[sid] == st.sessions[sid]
    {
      if e.AckE? || e.ConcludeE? {
        PendingMeansTerminating(st, ch, e.terminationId);
        hide Inv;
        OutcomeLeavesTerminated(st, e, sid);
      } else {
        hide Inv;
        RequestLeavesTerminated(st, e, sid);
      }
    }
  }

  lemma RequestLeavesTerminated(st: Store, e: Event, sid: Id)
    requires sid in st.sessions && st.sessions[sid].state == Terminated && !e.AckE? && !e.ConcludeE?
    ensures sid in Apply(st, e).store.sessions && Apply(st, e).store.sessions[sid] == st.sessions[sid]
  {
  }

  lemma OutcomeLeavesTerminated(st: Store, e: Event, sid: Id)
    requires sid in st.sessions && st.sessions[sid].state == Terminated && (e.AckE? || e.ConcludeE?)
    requires SessionIsTerminating(st, e.terminationId)
    ensures sid in Apply(st, e).store.sessions && Apply(st, e).store.sessions[sid] == st.sessions[sid]
  {
  }

  ghost predicate SessionIsTerminating(st: Store, tid: Id) {
    tid in st.terminations && st.terminations[tid].result == Pending ==>
      st.terminations[tid].sessionId in st.sessions && st.sessions[st.terminations[tid].sessionId].state == Terminating
  }

  lemma PendingMeansTerminating(st: Store, ch: Chains, tid: Id)
    requires Inv(st, ch)
    ensures SessionIsTerminating(st, tid)
  {
    if tid in st.terminations && st.terminations[tid].result == Pending {
      PendingIsLeaf(st, ch, tid);
      assert Agrees(st, st.terminations[tid].sessionId, ch[st.terminations[tid].sessionId]);
    }
  }

  lemma UntouchedPersists(t: Termination)
    ensures DocPersists(t, t)
  {
    forall name ensures SameAck(t, t, name) {}
  }

  /** All documents but one are untouched, and that one persists. */
  lemma OneDocPersists(st: Store, st': Store, tid: Id)
    requires forall id :: id in st.terminations ==> id in st'.terminations
    requires forall id :: id in st.terminations && id != tid ==> st'.terminations[id] == st.terminations[id]
    requires tid in st.terminations ==> DocPersists(st.terminations[tid], st'.terminations[tid])
    ensures DocsPersist(st, st')
  {
    hide DocPersists;
    forall id | id in st.terminations ensures DocPersists(st.terminations[id], st'.terminations[id]) {
      UntouchedPersists(st.terminations[id]);
    }
  }

  lemma BeginPersists(st: Store, st': Store, e: Event)
    requires BeginDoes(st, st', e) && RequestKey(e.sessionId, e.payload.generation, e.requestId) !in st.requests
    ensures FilesPersist(st, st') && DocsPersist(st, st')
  {
    hide RequestKey, DocPersists;
    OneDocPersists(st, st', e.freshId);
  }

  lemma RetryPersists(st: Store, st': Store, e: Event)
    requires RetryDoes(st, st', e)
    requires RequestKey(e.sessionId, st.terminations[e.parentId].generation, e.requestId) !in st.requests
    ensures FilesPersist(st, st') && DocsPersist(st, st')
  {
    hide RequestKey, InheritedAcks, ConfirmedNames;
    ChildPersists(st.terminations[e.parentId], Some(e.freshId), e.now);
    hide DocPersists;
    OneDocPersists(st, st', e.parentId);
  }

  lemma ChildPersists(t: Termination, child: Option<Id>, now: nat)
    requires t.result == Partial || t.result == Timeout
    ensures DocPersists(t, t.(child := child, updatedAt := now))
  {
    forall name ensures SameAck(t, t.(child := child, updatedAt := now), name) {}
  }

  lemma ReportPersists(t: Termination, name: AckName, reporter: Reporter, report: Report, now: nat)
    requires t.result == Pending && name !in t.inherited
    ensures DocPersists(t, WithReport(t, name, reporter, report, now))
  {
    var t' := WithReport(t, name, reporter, report, now);
    forall other | other in t.inherited ensures SameAck(t, t', other) {}
  }

  lemma AckPersists(st: Store, e: Event)
    requires e.AckE?
    ensures FilesPersist(st, Apply(st, e).store) && DocsPersist(st, Apply(st, e).store)
  {
    var st' := Apply(st, e).store;
    if st' == st {
      SamePersists(st);
    } else {
      var t := st.terminations[e.terminationId];
      ReportPersists(t, e.name, e.reporter, Report(e.verdict, e.errorCode, e.now), e.now);
      hide DocPersists, WithReport;
      OneDocPersists(st, st', e.terminationId);
    }
  }

  lemma SamePersists(st: Store)
    ensures FilesPersist(st, st) && DocsPersist(st, st)
  {
    forall id | id in st.terminations ensures DocPersists(st.terminations[id], st.terminations[id]) {
      UntouchedPersists(st.terminations[id]);
    }
  }

  lemma ConcludedPersists(t: Termination, t': Termination)
    requires t.result == Pending
    requires t' == t.(result := t'.result, state := t'.state, terminalAt := t'.terminalAt, updatedAt := t'.updatedAt)
    ensures DocPersists(t, t')
  {
    forall name ensures SameAck(t, t', name) {}
  }

  lemma ConcludePersists(st: Store, e: Event)
    requires e.ConcludeE?
    ensures FilesPersist(st, Apply(st, e).store) && DocsPersist(st, Apply(st, e).store)
  {
    var st' := Apply(st, e).store;
    if st' == st {
      SamePersists(st);
    } else {
      ConcludedPersists(st.terminations[e.terminationId], st'.terminations[e.terminationId]);
      hide DocPersists;
      OneDocPersists(st, st', e.terminationId);
    }
  }

  /** A request changes the store only under a key that is not on file yet. */
  lemma OnlyNewKeysAreFiled(st: Store, e: Event)
    requires Legal(st, e) && Apply(st, e).store != st
    ensures e.BeginE? ==> RequestKey(e.sessionId, e.payload.generation, e.requestId) !in st.requests
    ensures e.RetryE? ==> e.parentId in st.terminations
    ensures e.RetryE? ==> RequestKey(e.sessionId, st.terminations[e.parentId].generation, e.requestId) !in st.requests
  {
    hide RequestKey;
  }

  lemma CreatePersists(st: Store, context: Context, now: nat)
    ensures FilesPersist(st, CreateSession(st, context, now).store)
    ensures DocsPersist(st, CreateSession(st, context, now).store)
  {
    SamePersists(st);
  }

  lemma StepPersists(st: Store, e: Event)
    requires Legal(st, e)
    ensures FilesPersist(st, Apply(st, e).store) && DocsPersist(st, Apply(st, e).store)
  {
    var st' := Apply(st, e).store;
    match e
    case AckE(_, _, _, _, _, _, _) => AckPersists(st, e);
    case ConcludeE(_, _, _) => ConcludePersists(st, e);
    case CreateE(context, now) => CreatePersists(st, context, now);
    case _ =>
      if st' == st {
        SamePersists(st);
      } else {
        OnlyNewKeysAreFiled(st, e);
        if e.BeginE? { BeginEffect(st, e); } else { RetryEffect(st, e); }
        hide Apply, RequestKey, BeginDoes, RetryDoes, FilesPersist, DocsPersist;
        if e.BeginE? { BeginPersists(st, st', e); } else { RetryPersists(st, st', e); }
      }
  }

  lemma {:induction false} RunPersists(st: Store, events: seq<Event>)
    requires LegalRun(st, events)
    ensures FilesPersist(st, Run(st, events)) && DocsPersist(st, Run(st, events))
    decreases |events|
  {
    hide Apply, DocPersists;
    if events == [] {
      SamePersists(st);
    } else {
      var mid := Apply(st, events[0]).store;
      StepPersists(st, events[0]);
      RunPersists(mid, events[1..]);
      var end := Run(st, events);
      forall tid | tid in st.terminations ensures DocPersists(st.terminations[tid], end.terminations[tid]) {
        DocPersistsTransitively(st.terminations[tid], mid.terminations[tid], end.terminations[tid]);
      }
    }
  }

  lemma DocPersistsTransitively(t: Termination, u: Termination, v: Termination)
    requires DocPersists(t, u) && DocPersists(u, v)
    ensures DocPersists(t, v)
  {
    forall name | name in t.inherited ensures SameAck(t, v, name) {
      assert SameAck(t, u, name) && SameAck(u, v, name);
    }
  }

  /** TERMINATED is absorbing: whatever runs afterwards, the session document and every document of
      its chain stay as they are. */
  lemma {:induction false} TerminatedIsFinal(st: Store, ch: Chains, events: seq<Event>, sid: Id)
    requires Inv(st, ch) && LegalRun(st, events) && sid in st.sessions && st.sessions[sid].state == Terminated
    ensures sid in Run(st, events).sessions && Run(st, events).sessions[sid] == st.sessions[sid]
    decreases |events|
  {
    hide Apply, Inv;
    if events != [] {
      TerminatedIsLeftAlone(st, ch, events[0]);
      var ch' := StepKeeps(st, ch, events[0]);
      TerminatedIsFinal(Apply(st, events[0]).store, ch', events[1..], sid);
    }
  }
}
