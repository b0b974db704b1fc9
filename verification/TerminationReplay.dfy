/** Requests repeated: the same request is answered as the first time, another one under its key is refused
    (deploy/trtc-sign/termination-store.js). */
module TerminationReplay {
  import opened Outcomes
  import opened TextDigest
  import opened TerminationContract
  import opened TerminationLedger
  import opened TerminationInvariants
  import opened TerminationTheorems
  import opened RequestIdentity

  /** The transaction that a request stands for, and the key it is filed under. */
  predicate IsRequest(e: Event) { e.BeginE? || e.RetryE? }

  function KeyOf(st: Store, e: Event): Digest
    requires e.BeginE? || (e.RetryE? && e.parentId in st.terminations)
  {
    if e.BeginE? then RequestKey(e.sessionId, e.payload.generation, e.requestId)
    else RequestKey(e.sessionId, st.terminations[e.parentId].generation, e.requestId)
  }

  predicate Accepted(st: Store, e: Event) {
    Apply(st, e).reply.Ok?
  }

  /** Request ids that the key cannot tell apart. */
  predicate Lookalike(rid: Id, rid': Id) {
    Scrub(rid) == Scrub(rid')
  }

  /** The same request again: the clock and the random identifier on offer may differ, and the request id
      in unpaired surrogates. */
  predicate SameCall(e: Event, e': Event) {
    match e
    case BeginE(sid, payload, rid, hash, _, _) =>
      && e'.BeginE? && Lookalike(rid, e'.requestId)
      && e' == BeginE(sid, payload, e'.requestId, hash, e'.freshId, e'.now)
    case RetryE(sid, pid, rid, reason, hash, _, _) =>
      && e'.RetryE? && Lookalike(rid, e'.requestId)
      && e' == RetryE(sid, pid, e'.requestId, reason, hash, e'.freshId, e'.now)
    case _ => false
  }

  /** Another request under the same session and request id, with another payload. */
  predicate OtherPayload(e: Event, e': Event)
    requires IsRequest(e) && IsRequest(e')
  {
    e'.sessionId == e.sessionId && Lookalike(e.requestId, e'.requestId) && e'.hash != e.hash
  }

  lemma LookalikesShareAKey(sid: Id, generation: nat, rid: Id, rid': Id)
    requires Lookalike(rid, rid')
    ensures RequestKey(sid, generation, rid) == RequestKey(sid, generation, rid')
  {
    KeysAgree(sid, generation, rid, sid, generation, rid');
  }

  lemma AcceptedIsFiled(st: Store, ch: Chains, e: Event)
    requires Inv(st, ch) && Legal(st, e) && IsRequest(e) && Accepted(st, e)
    ensures var st', reply := Apply(st, e).store, Apply(st, e).reply.value;
            && (e.RetryE? ==> e.parentId in st.terminations)
            && Applicable(st, e)
            && reply.OfTermination?
            && KeyOf(st, e) in st'.requests
            && st'.requests[KeyOf(st, e)].terminationId == reply.id
            && st'.requests[KeyOf(st, e)].payloadHash == e.hash
            && reply.id in st'.terminations
            && e.sessionId in st'.sessions
            && KeyOf(st, e) == RequestKey(e.sessionId, st'.sessions[e.sessionId].generation, e.requestId)
  {
    var key := if e.BeginE? || e.parentId in st.terminations then KeyOf(st, e) else Sha256([]);
    assert key in st.requests ==> RequestOk(st, key, st.requests[key]);
    assert e.RetryE? ==> RecordOk(st, e.parentId);
  }

  /** In every reachable store: once a terminate or retry was accepted, sending it again, however
      much later, returns the original termination and changes no document. */
  lemma IdempotentReplay(st: Store, e: Event, later: seq<Event>, again: Event)
    requires Reachable(st) && Legal(st, e) && IsRequest(e) && Accepted(st, e)
    requires LegalRun(Apply(st, e).store, later) && SameCall(e, again)
    ensures var end := Run(Apply(st, e).store, later);
            && Apply(end, again).store == end
            && Apply(end, again).reply.Ok?
            && Apply(st, e).reply.value.OfTermination?
            && Apply(end, again).reply.value.OfTermination?
            && Apply(end, again).reply.value.id == Apply(st, e).reply.value.id
  {
    var ch := ReachableInv(st);
    AcceptedIsFiled(st, ch, e);
    var mid := Apply(st, e).store;
    var end := Run(mid, later);
    StepPersists(st, e);
    RunPersists(mid, later);
    ApplicablePersists(st, mid, e);
    ApplicablePersists(mid, end, e);
    hide Apply, Run, LegalRun, Legal, Reachable, Inv, Accepted, RequestKey, Scrub;
    var generation := if e.BeginE? then e.payload.generation else end.terminations[e.parentId].generation;
    LookalikesShareAKey(e.sessionId, generation, e.requestId, again.requestId);
    FiledIsReplayed(end, again, mid.requests[KeyOf(st, e)].terminationId);
  }

  /** Past the checks that come before the request key is looked up. */
  predicate Applicable(st: Store, e: Event)
    requires IsRequest(e)
  {
    if e.BeginE? then
      && e.sessionId in st.sessions && e.sessionId == e.payload.sessionId
      && SameContext(st.sessions[e.sessionId], e.payload)
    else e.parentId in st.terminations && st.terminations[e.parentId].sessionId == e.sessionId
  }

  lemma ApplicablePersists(st: Store, end: Store, e: Event)
    requires IsRequest(e) && Applicable(st, e) && FilesPersist(st, end) && DocsPersist(st, end)
    ensures Applicable(end, e) && KeyOf(end, e) == KeyOf(st, e)
  {
    if e.RetryE? { assert DocPersists(st.terminations[e.parentId], end.terminations[e.parentId]); }
  }

  lemma FiledIsReplayed(st: Store, e: Event, id: Id)
    requires IsRequest(e) && Applicable(st, e) && KeyOf(st, e) in st.requests
    requires st.requests[KeyOf(st, e)].terminationId == id && st.requests[KeyOf(st, e)].payloadHash == e.hash
    requires id in st.terminations
    ensures Apply(st, e) == Step(Ok(OfTermination(id, st.terminations[id])), st)
  {
  }

  /** The same request id with another payload is refused and changes nothing, whichever of the two
      operations used it first: terminate and retry share one key space. */
  lemma OtherPayloadIsRefused(st: Store, e: Event, later: seq<Event>, other: Event)
    requires Reachable(st) && Legal(st, e) && IsRequest(e) && Accepted(st, e)
    requires LegalRun(Apply(st, e).store, later) && IsRequest(other) && OtherPayload(e, other)
    ensures var end := Run(Apply(st, e).store, later);
            Apply(end, other).store == end && Apply(end, other).reply.Err?
  {
    var ch := ReachableInv(st);
    AcceptedIsFiled(st, ch, e);
    var ch1 := StepKeeps(st, ch, e);
    RunPersists(Apply(st, e).store, later);
    var ch2 := RunKeeps(Apply(st, e).store, ch1, later);
    var end := Run(Apply(st, e).store, later);
    hide Apply, Run, LegalRun, Legal, Reachable, Inv, Accepted, RequestKey, Scrub;
    LookalikesShareAKey(e.sessionId, end.sessions[e.sessionId].generation, e.requestId, other.requestId);
    FiledKeyRefuses(end, ch2, other);
  }

  lemma FiledKeyRefuses(st: Store, ch: Chains, e: Event)
    requires Inv(st, ch) && IsRequest(e) && e.sessionId in st.sessions
    requires var key := RequestKey(e.sessionId, st.sessions[e.sessionId].generation, e.requestId);
             key in st.requests && st.requests[key].payloadHash != e.hash
    ensures Apply(st, e).store == st && Apply(st, e).reply.Err?
  {
    if e.RetryE? && e.parentId in st.terminations {
      assert RecordOk(st, e.parentId);
    }
  }
}
