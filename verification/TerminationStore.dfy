/** The store itself: three collections changed by transactions
    (deploy/trtc-sign/termination-store.js). Every method is one committed transaction and is proved
    to do what the ledger's step function says. */
module TerminationStore {
  import opened Outcomes
  import opened JsText
  import opened TerminationContract
  import opened TextDigest
  import L = TerminationLedger

  /** A report is filed when it comes in the termination's own context, while it is pending, for a name it
      did not inherit, from a reporter listed for that name. */
  predicate Reportable(t: L.Termination, context: L.Context, name: AckName, reporter: Reporter) {
    && context == L.Context(t.sessionId, t.deviceId, t.roomId, t.generation)
    && t.result == Pending && name !in t.inherited && reporter in Reporters(name)
  }

  lemma AckCases(st: L.Store, tid: L.Id, context: L.Context, name: AckName, reporter: Reporter, verdict: Verdict,
      errorCode: Option<Text>, now: nat)
    ensures var step := L.RecordAck(st, tid, context, name, reporter, verdict, errorCode, now);
      && (tid !in st.terminations ==> step == L.Step(Err(40403), st))
      && (tid in st.terminations && !Reportable(st.terminations[tid], context, name, reporter) ==>
            step == L.Step(Err(40901), st))
      && (tid in st.terminations && Reportable(st.terminations[tid], context, name, reporter) ==>
            var after := L.WithReport(st.terminations[tid], name, reporter, Report(verdict, errorCode, now), now);
            step == Reported(st, tid, after, now))
  {
    hide L.WithReport, Reporters;
  }

  function Reported(st: L.Store, tid: L.Id, after: L.Termination, now: nat): L.Step
    requires tid in st.terminations
  {
    var sid := st.terminations[tid].sessionId;
    var sessions :=
      if after.result == Complete && sid in st.sessions
      then st.sessions[sid := st.sessions[sid].(state := L.Terminated, updatedAt := now)]
      else st.sessions;
    L.Step(Ok(L.OfTermination(tid, after)), st.(sessions := sessions, terminations := st.terminations[tid := after]))
  }

  class TerminationStore {
    var sessions: map<L.Id, L.Session>
    var terminations: map<L.Id, L.Termination>
    var requests: map<Digest, L.Request>

    constructor ()
      ensures Contents() == L.EMPTY
    {
      sessions, terminations, requests := map[], map[], map[];
    }

    function Contents(): L.Store
      reads this
    {
      L.Store(sessions, terminations, requests)
    }

    method CreateSession(context: L.Context, now: nat) returns (reply: Result<L.Reply>)
      modifies this
      ensures L.Step(reply, Contents()) == L.CreateSession(old(Contents()), context, now)
    {
      if context.sessionId in sessions {
        var current := sessions[context.sessionId];
        var same := current.deviceId == context.deviceId && current.roomId == context.roomId
                    && current.generation == context.generation;
        if !same { return Err(40916); }
        return Ok(L.OfSession(current));
      }
      var record := L.Session(context.deviceId, context.roomId, context.generation, L.Active, now, now);
      sessions := sessions[context.sessionId := record];
      reply := Ok(L.OfSession(record));
    }

    method BeginTermination(sessionId: L.Id, payload: L.Context, requestId: Text, hash: Digest, freshId: L.Id, now: nat)
      returns (reply: Result<L.Reply>)
      modifies this
      ensures L.Step(reply, Contents()) == L.Begin(old(Contents()), sessionId, payload, requestId, hash, freshId, now)
    {
      var key := RequestKey(sessionId, payload.generation, requestId);
      if sessionId !in sessions { return Err(40402); }
      var session := sessions[sessionId];
      if sessionId != payload.sessionId || session.deviceId != payload.deviceId
         || session.roomId != payload.roomId || session.generation != payload.generation {
        return Err(40916);
      }
      if key in requests {
        reply := Replay(key, hash);
        return;
      }
      if session.state != L.Active { return Err(40916); }
      var record := L.Termination(
        sessionId, session.deviceId, session.roomId, payload.generation, L.Terminate, requestId, hash,
        None, None, Pending, L.Terminating, InitialAcks(), {}, map[], None, now, now);
      terminations := terminations[freshId := record];
      requests := requests[key := L.Request(freshId, hash, L.Terminate, now)];
      sessions := sessions[sessionId := session.(state := L.Terminating, updatedAt := now)];
      reply := Ok(L.OfTermination(freshId, record));
    }

    method Replay(key: Digest, hash: Digest) returns (reply: Result<L.Reply>)
      requires key in requests
      ensures L.Step(reply, Contents()) == L.Replay(Contents(), key, hash)
    {
      var existing := requests[key];
      if existing.payloadHash != hash { return Err(40912); }
      if existing.terminationId !in terminations { return Err(50000); }
      reply := Ok(L.OfTermination(existing.terminationId, terminations[existing.terminationId]));
    }

    /** The loop that copies confirmed acknowledgements into a retry. */
    method Inherit(acks: map<AckName, Ack>) returns (inherited: set<AckName>)
      ensures inherited == set name | name in acks && acks[name] == AckConfirmed
    {
      inherited := {};
      for i := 0 to |ACK_NAMES|
        invariant inherited == set name | name in ACK_NAMES[..i] && name in acks && acks[name] == AckConfirmed
      {
        var name := ACK_NAMES[i];
        assert ACK_NAMES[..i + 1] == ACK_NAMES[..i] + [name];
        if name in acks && acks[name] == AckConfirmed {
          inherited := inherited + {name};
        }
      }
      assert ACK_NAMES[..|ACK_NAMES|] == ACK_NAMES;
      forall name: AckName ensures name in ACK_NAMES { NamesAreAll(name); }
    }

    method RetryTermination(sessionId: L.Id, parentId: L.Id, requestId: Text, reason: RetryReason,
          hash: Digest, freshId: L.Id, now: nat)
      returns (reply: Result<L.Reply>)
      modifies this
      ensures L.Step(reply, Contents())
              == L.RetryChild(old(Contents()), sessionId, parentId, requestId, reason, hash, freshId, now)
    {
      if parentId !in terminations || terminations[parentId].sessionId != sessionId { return Err(40403); }
      var parent := terminations[parentId];
      var key := RequestKey(sessionId, parent.generation, requestId);
      if key in requests {
        reply := Replay(key, hash);
        return;
      }
      var expectedState := if parent.result == Partial then L.TerminationPartial else L.TerminationTimeout;
      if ReasonFor(parent.result) != Some(reason) || sessionId !in sessions
         || sessions[sessionId].state != expectedState || parent.child != None {
        return Err(40913);
      }
      var inherited := Inherit(parent.acks);
      var record := L.Termination(
        sessionId, parent.deviceId, parent.roomId, parent.generation, L.Retry, requestId, hash,
        Some(parentId), None, Pending, L.Terminating, L.InheritedAcks(inherited), inherited, map[], None, now, now);
      terminations := terminations[freshId := record];
      requests := requests[key := L.Request(freshId, hash, L.Retry, now)];
      terminations := terminations[parentId := parent.(child := Some(freshId), updatedAt := now)];
      sessions := sessions[sessionId := sessions[sessionId].(state := L.Terminating, updatedAt := now)];
      reply := Ok(L.OfTermination(freshId, record));
    }

    /** The record with one more report, aggregated, and complete once all five names are confirmed. */
    static method Patch(record: L.Termination, name: AckName, reporter: Reporter, report: Report, now: nat)
      returns (patched: L.Termination)
      ensures patched == L.WithReport(record, name, reporter, report, now)
    {
      var earlier := if name in record.reports then record.reports[name] else map[];
      var latest := earlier[reporter := report];
      var aggregate := L.Aggregate(name, latest);
      hide L.Aggregate;
      patched := record.(reports := record.reports[name := latest], acks := record.acks[name := aggregate],
                         updatedAt := now);
      if L.AllConfirmed(patched.acks) {
        patched := patched.(result := Complete, state := L.Terminated, terminalAt := Some(now));
      }
    }

    method RecordAck(terminationId: L.Id, context: L.Context, name: AckName, reporter: Reporter, verdict: Verdict,
        errorCode: Option<Text>, now: nat)
      returns (reply: Result<L.Reply>)
      modifies this
      ensures L.Step(reply, Contents())
              == L.RecordAck(old(Contents()), terminationId, context, name, reporter, verdict, errorCode, now)
    {
      AckCases(Contents(), terminationId, context, name, reporter, verdict, errorCode, now);
      hide L.RecordAck, L.WithReport, Reporters;
      if terminationId !in terminations { return Err(40403); }
      var record := terminations[terminationId];
      if context != L.Context(record.sessionId, record.deviceId, record.roomId, record.generation) {
        return Err(40901);
      }
      if record.result != Pending || name in record.inherited { return Err(40901); }
      if reporter !in Reporters(name) { return Err(40901); }
      var patched := Patch(record, name, reporter, Report(verdict, errorCode, now), now);
      FilePatch(terminationId, patched, record.sessionId, now);
      reply := Ok(L.OfTermination(terminationId, patched));
    }

    /** The patched document, and with the last confirmation the session. */
    method FilePatch(terminationId: L.Id, patched: L.Termination, sessionId: L.Id, now: nat)
      modifies this`terminations, this`sessions
      ensures terminations == old(terminations)[terminationId := patched]
      ensures sessions ==
        if patched.result == Complete && sessionId in old(sessions)
        then old(sessions)[sessionId := old(sessions)[sessionId].(state := L.Terminated, updatedAt := now)]
        else old(sessions)
    {
      terminations := terminations[terminationId := patched];
      if patched.result == Complete && sessionId in sessions {
        sessions := sessions[sessionId := sessions[sessionId].(state := L.Terminated, updatedAt := now)];
      }
    }
  }
}
