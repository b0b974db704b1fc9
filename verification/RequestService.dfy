/** The service calls terminate and retry (deploy/trtc-sign/termination-service.js): what one request id
    stands for. */
module RequestService {
  import opened JsText
  import opened CanonicalDigest
  import opened TerminationContract
  import opened TerminationLedger
  import opened TerminationTheorems
  import opened TerminationReplay
  import opened RequestBodies

  /** terminate(pathSessionId, body), after validation has matched the path with the body. */
  function TerminateCall(b: TerminateBody, freshId: Id, now: nat): Event {
    BeginE(b.sessionId, Context(b.sessionId, b.deviceId, b.roomId, b.generation), b.requestId,
           PayloadHash(TerminateJson(b)), freshId, now)
  }

  /** retry(pathSessionId, parentId, body). */
  function RetryCall(sid: Text, pid: Text, rid: Text, reason: RetryReason, freshId: Id, now: nat): Event {
    RetryE(sid, pid, rid, reason, PayloadHash(RetryJson(sid, pid, reason)), freshId, now)
  }

  ghost predicate IsTerminateUnder(e: Event, sid: Text, rid: Text) {
    exists b, id, t :: e == TerminateCall(b, id, t) && b.sessionId == sid && Lookalike(rid, b.requestId)
  }

  ghost predicate IsRetryUnder(e: Event, sid: Text, rid: Text) {
    exists pid, rid', reason, id, t :: e == RetryCall(sid, pid, rid', reason, id, t) && Lookalike(rid, rid')
  }

  /** The request sent again: for a retry the request id may differ in unpaired surrogates, which its hash
      leaves out and its key cannot tell apart. */
  ghost predicate IsAgain(first: Event, e: Event) {
    match first
    case BeginE(sid, payload, rid, hash, _, _) =>
      e.BeginE? && e == BeginE(sid, payload, rid, hash, e.freshId, e.now)
    case RetryE(sid, pid, rid, reason, hash, _, _) =>
      e.RetryE? && Lookalike(rid, e.requestId) && e == RetryE(sid, pid, e.requestId, reason, hash, e.freshId, e.now)
    case _ => false
  }

  /** The calls of the service, as their hashes tell them apart. */
  lemma OnlyAgainHashesAlike(first: Event, e: Event, sid: Text, rid: Text)
    requires IsTerminateUnder(first, sid, rid) || IsRetryUnder(first, sid, rid)
    requires IsTerminateUnder(e, sid, rid) || IsRetryUnder(e, sid, rid)
    ensures e.hash == first.hash <==> IsAgain(first, e)
  {
    hide PayloadHash, TerminateJson, RetryJson;
    if IsTerminateUnder(first, sid, rid) {
      var b, id, t :| first == TerminateCall(b, id, t) && b.sessionId == sid && Lookalike(rid, b.requestId);
      if IsTerminateUnder(e, sid, rid) {
        var b', id', t' :| e == TerminateCall(b', id', t') && b'.sessionId == sid && Lookalike(rid, b'.requestId);
        if e.hash == first.hash { TerminateHashIsInjective(b, b'); }
        if IsAgain(first, e) { assert e.hash == first.hash; }
      } else {
        RetryHashesUnlike(b, e, sid, rid);
      }
    } else if IsTerminateUnder(e, sid, rid) {
      var b, id, t :| e == TerminateCall(b, id, t) && b.sessionId == sid && Lookalike(rid, b.requestId);
      RetryHashesUnlike(b, first, sid, rid);
    } else {
      RetriesHashAlike(first, e, sid, rid);
    }
  }

  lemma RetryHashesUnlike(b: TerminateBody, e: Event, sid: Text, rid: Text)
    requires IsRetryUnder(e, sid, rid)
    ensures e.RetryE? && e.hash != PayloadHash(TerminateJson(b))
  {
    var pid, rid', reason, id, t :| e == RetryCall(sid, pid, rid', reason, id, t) && Lookalike(rid, rid');
    TerminateIsNeverRetry(b, sid, pid, reason);
  }

  lemma RetriesHashAlike(first: Event, e: Event, sid: Text, rid: Text)
    requires IsRetryUnder(first, sid, rid) && IsRetryUnder(e, sid, rid)
    ensures e.hash == first.hash <==> IsAgain(first, e)
  {
    hide PayloadHash, RetryJson;
    var p1, rid1, r1, id1, t1 :| first == RetryCall(sid, p1, rid1, r1, id1, t1) && Lookalike(rid, rid1);
    var p2, rid2, r2, id2, t2 :| e == RetryCall(sid, p2, rid2, r2, id2, t2) && Lookalike(rid, rid2);
    if e.hash == first.hash { RetryHashIsInjective(sid, p1, r1, sid, p2, r2); }
  }

  /** A request id names one request for good. Once a terminate or a retry was accepted under it, sending
      the same again is answered with the original termination, every other terminate or retry under that
      id is refused, and nothing changes, however much later. */
  lemma RequestIdNamesOneRequest(st: Store, first: Event, sid: Text, rid: Text, later: seq<Event>, e: Event)
    requires Reachable(st) && Legal(st, first) && Accepted(st, first)
    requires IsTerminateUnder(first, sid, rid) || IsRetryUnder(first, sid, rid)
    requires IsTerminateUnder(e, sid, rid) || IsRetryUnder(e, sid, rid)
    requires LegalRun(Apply(st, first).store, later)
    ensures var end := Run(Apply(st, first).store, later);
            && Apply(end, e).store == end
            && (Apply(end, e).reply.Ok? <==> IsAgain(first, e))
            && (IsAgain(first, e) ==> SameAnswer(st, first, end, e))
  {
    OnlyAgainHashesAlike(first, e, sid, rid);
    UnderMeansRequest(first, sid, rid);
    UnderMeansRequest(e, sid, rid);
    hide IsTerminateUnder, IsRetryUnder, Apply, Run, LegalRun, Reachable, Lookalike;
    if IsAgain(first, e) {
      AgainIsSameCall(first, e);
      IdempotentReplay(st, first, later, e);
    } else {
      SameRequestId(first, e, rid);
      OtherPayloadIsRefused(st, first, later, e);
    }
  }

  lemma UnderMeansRequest(e: Event, sid: Text, rid: Text)
    requires IsTerminateUnder(e, sid, rid) || IsRetryUnder(e, sid, rid)
    ensures IsRequest(e) && e.sessionId == sid && Lookalike(rid, e.requestId)
  {
    hide PayloadHash;
  }

  lemma SameRequestId(first: Event, e: Event, rid: Text)
    requires IsRequest(first) && IsRequest(e) && Lookalike(rid, first.requestId) && Lookalike(rid, e.requestId)
    ensures Lookalike(first.requestId, e.requestId)
  {
  }

  lemma AgainIsSameCall(first: Event, e: Event)
    requires IsRequest(first) && IsAgain(first, e)
    ensures SameCall(first, e)
  {
  }

  ghost predicate SameAnswer(st: Store, first: Event, end: Store, e: Event) {
    && Apply(st, first).reply.Ok? && Apply(st, first).reply.value.OfTermination?
    && Apply(end, e).reply.Ok? && Apply(end, e).reply.value.OfTermination?
    && Apply(end, e).reply.value.id == Apply(st, first).reply.value.id
  }

  /** A second retry of the same parent under a different request id need not be a second request: when the
      ids differ in nothing but unpaired surrogates it is answered with the first one's child. */
  lemma LookalikeRetryIsReplayed(st: Store, sid: Text, pid: Text, reason: RetryReason, freshId: Id, now: nat,
        freshId': Id, now': nat)
    requires Reachable(st) && Legal(st, RetryCall(sid, pid, [0xD800], reason, freshId, now))
    requires Accepted(st, RetryCall(sid, pid, [0xD800], reason, freshId, now))
    ensures var mid := Apply(st, RetryCall(sid, pid, [0xD800], reason, freshId, now)).store;
            SameAnswer(st, RetryCall(sid, pid, [0xD800], reason, freshId, now),
                       mid, RetryCall(sid, pid, [0xD801], reason, freshId', now'))
  {
    hide PayloadHash, Apply, Reachable;
    var first := RetryCall(sid, pid, [0xD800], reason, freshId, now);
    var second := RetryCall(sid, pid, [0xD801], reason, freshId', now');
    assert Lookalike([0xD800], [0xD801]);
    var none: seq<Event> := [];
    assert IsRetryUnder(first, sid, [0xD800]) && IsRetryUnder(second, sid, [0xD800]);
    assert LegalRun(Apply(st, first).store, none) && Run(Apply(st, first).store, none) == Apply(st, first).store;
    RequestIdNamesOneRequest(st, first, sid, [0xD800], none, second);
  }
}
