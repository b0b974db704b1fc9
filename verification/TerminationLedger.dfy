/** The termination documents and the transactions that change them
    (deploy/trtc-sign/termination-store.js). Each transaction is one atomic step on
    the three collections; a thrown error leaves the collections as they were. */
module TerminationLedger {
  import opened Outcomes
  import opened JsText
  import opened TerminationContract
  import opened TextDigest

  type Id = Text

  datatype SessionState =
    | Active
    | Terminating
    | TerminationPartial
    | TerminationTimeout
    | Terminated

  datatype Session = Session(
    deviceId: Id, roomId: Id, generation: nat, state: SessionState, createdAt: nat, updatedAt: nat)

  datatype Operation = Terminate | Retry

  datatype Termination = Termination(
    sessionId: Id, deviceId: Id, roomId: Id, generation: nat,
    operation: Operation, requestId: Text, payloadHash: Digest,
    parent: Option<Id>, child: Option<Id>,
    result: Outcome, state: SessionState,
    acks: map<AckName, Ack>, inherited: set<AckName>, reports: map<AckName, map<Reporter, Report>>,
    terminalAt: Option<nat>, createdAt: nat, updatedAt: nat)

  datatype Request = Request(terminationId: Id, payloadHash: Digest, operation: Operation, createdAt: nat)

  datatype Store = Store(
    sessions: map<Id, Session>, terminations: map<Id, Termination>, requests: map<Digest, Request>)

  const EMPTY := Store(map[], map[], map[])

  /** What a caller of a transaction learns: the session or termination document. */
  datatype Reply = OfSession(session: Session) | OfTermination(id: Id, termination: Termination)

  datatype Step = Step(reply: Result<Reply>, store: Store)

  /** Who and where a request says it is. */
  datatype Context = Context(sessionId: Id, deviceId: Id, roomId: Id, generation: nat)

  // ---------- transactions ----------

  function CreateSession(st: Store, context: Context, now: nat): Step {
    if context.sessionId in st.sessions then
      var current := st.sessions[context.sessionId];
      if SameContext(current, context)
      then Step(Ok(OfSession(current)), st)
      else Step(Err(40916), st)
    else
      var session := Session(context.deviceId, context.roomId, context.generation, Active, now, now);
      Step(Ok(OfSession(session)), st.(sessions := st.sessions[context.sessionId := session]))
  }

  predicate SameContext(session: Session, context: Context) {
    session.deviceId == context.deviceId && session.roomId == context.roomId
    && session.generation == context.generation
  }

  /** beginTermination. `payload` is the context named in the request body, `freshId` the random
      identifier a new termination would get. */
  function Begin(st: Store, sessionId: Id, payload: Context, requestId: Text, hash: Digest, freshId: Id, now: nat): Step
  {
    var key := RequestKey(sessionId, payload.generation, requestId);
    if sessionId !in st.sessions then Step(Err(40402), st)
    else if sessionId != payload.sessionId || !SameContext(st.sessions[sessionId], payload) then Step(Err(40916), st)
    else if key in st.requests then Replay(st, key, hash)
    else if st.sessions[sessionId].state != Active then Step(Err(40916), st)
    else
      var session := st.sessions[sessionId];
      var record := Termination(
        sessionId, session.deviceId, session.roomId, payload.generation, Terminate, requestId, hash,
        None, None, Pending, Terminating, InitialAcks(), {}, map[], None, now, now);
      Step(Ok(OfTermination(freshId, record)),
           Store(st.sessions[sessionId := session.(state := Terminating, updatedAt := now)],
                 st.terminations[freshId := record],
                 st.requests[key := Request(freshId, hash, Terminate, now)]))
  }

  /** A request key already on file: the first answer again, or 40912 for another payload. */
  function Replay(st: Store, key: Digest, hash: Digest): Step
    requires key in st.requests
  {
    var existing := st.requests[key];
    if existing.payloadHash != hash then Step(Err(40912), st)
    else if existing.terminationId in st.terminations then
      Step(Ok(OfTermination(existing.terminationId, st.terminations[existing.terminationId])), st)
    else Step(Err(50000), st)
  }

  /** Acknowledgements a retry takes over from its parent. */
  function ConfirmedNames(t: Termination): set<AckName> {
    set name | name in t.acks && t.acks[name] == AckConfirmed
  }

  function InheritedAcks(names: set<AckName>): map<AckName, Ack> {
    map name | name in InitialAcks().Keys + names :: if name in names then AckConfirmed else AckPending
  }

  predicate Retryable(st: Store, parent: Termination, sessionId: Id, reason: RetryReason) {
    && ReasonFor(parent.result) == Some(reason)
    && sessionId in st.sessions
    && st.sessions[sessionId].state == (if parent.result == Partial then TerminationPartial else TerminationTimeout)
    && parent.child == None
  }

  /** retryTermination. */
  function RetryChild(st: Store, sessionId: Id, parentId: Id, requestId: Text, reason: RetryReason,
        hash: Digest, freshId: Id, now: nat): Step
  {
    if parentId !in st.terminations || st.terminations[parentId].sessionId != sessionId then Step(Err(40403), st)
    else
      var parent := st.terminations[parentId];
      var key := RequestKey(sessionId, parent.generation, requestId);
      if key in st.requests then Replay(st, key, hash)
      else if !Retryable(st, parent, sessionId, reason) then Step(Err(40913), st)
      else
        var record := Termination(
          sessionId, parent.deviceId, parent.roomId, parent.generation, Retry, requestId, hash,
          Some(parentId), None, Pending, Terminating,
          InheritedAcks(ConfirmedNames(parent)), ConfirmedNames(parent), map[], None, now, now);
        Step(Ok(OfTermination(freshId, record)),
             Store(st.sessions[sessionId := st.sessions[sessionId].(state := Terminating, updatedAt := now)],
                   st.terminations[freshId := record][parentId := parent.(child := Some(freshId), updatedAt := now)],
                   st.requests[key := Request(freshId, hash, Retry, now)]))
  }

  /** Failed as soon as one report is; confirmed once every required reporter confirmed. */
  function Aggregate(name: AckName, latest: map<Reporter, Report>): Ack {
    if exists r | r in latest :: latest[r].verdict == Failed then AckFailed
    else if forall r | r in Reporters(name) :: r in latest && latest[r].verdict == Confirmed then AckConfirmed
    else AckPending
  }

  function ReportsOn(t: Termination, name: AckName): map<Reporter, Report> {
    if name in t.reports then t.reports[name] else map[]
  }

  predicate AllConfirmed(acks: map<AckName, Ack>) {
    forall name: AckName :: name in acks && acks[name] == AckConfirmed
  }

  /** The record after one more report. */
  function WithReport(t: Termination, name: AckName, reporter: Reporter, report: Report, now: nat): Termination {
    var latest := ReportsOn(t, name)[reporter := report];
    var patched := t.(reports := t.reports[name := latest],
                      acks := t.acks[name := Aggregate(name, latest)],
                      updatedAt := now);
    if AllConfirmed(patched.acks)
    then patched.(result := Complete, state := Terminated, terminalAt := Some(now))
    else patched
  }

  /** recordAck. */
  function RecordAck(st: Store, terminationId: Id, context: Context, name: AckName, reporter: Reporter,
        verdict: Verdict, errorCode: Option<Text>, now: nat): Step
  {
    if terminationId !in st.terminations then Step(Err(40403), st)
    else
      var t := st.terminations[terminationId];
      if context != Context(t.sessionId, t.deviceId, t.roomId, t.generation) then Step(Err(40901), st)
      else if t.result != Pending || name in t.inherited then Step(Err(40901), st)
      else if reporter !in Reporters(name) then Step(Err(40901), st)
      else
        var after := WithReport(t, name, reporter, Report(verdict, errorCode, now), now);
        var sessions :=
          if after.result == Complete && t.sessionId in st.sessions
          then st.sessions[t.sessionId := st.sessions[t.sessionId].(state := Terminated, updatedAt := now)]
          else st.sessions;
        Step(Ok(OfTermination(terminationId, after)),
             st.(sessions := sessions, terminations := st.terminations[terminationId := after]))
  }

  /** The environment gives up on a pending termination. No code of the repository writes these
      two results, although retries, status and the session states expect them. */
  function Conclude(st: Store, terminationId: Id, partially: bool, now: nat): Step {
    if terminationId !in st.terminations || st.terminations[terminationId].result != Pending
       || st.terminations[terminationId].sessionId !in st.sessions
    then Step(Err(40901), st)
    else
      var t := st.terminations[terminationId];
      var state := if partially then TerminationPartial else TerminationTimeout;
      var after := t.(result := if partially then Partial else Timeout, state := state,
                      terminalAt := Some(now), updatedAt := now);
      Step(Ok(OfTermination(terminationId, after)),
           st.(sessions := st.sessions[t.sessionId := st.sessions[t.sessionId].(state := state, updatedAt := now)],
               terminations := st.terminations[terminationId := after]))
  }

  // ---------- runs ----------

  datatype Event =
    | CreateE(context: Context, now: nat)
    | BeginE(sessionId: Id, payload: Context, requestId: Text, hash: Digest, freshId: Id, now: nat)
    | RetryE(sessionId: Id, parentId: Id, requestId: Text, reason: RetryReason, hash: Digest, freshId: Id, now: nat)
    | AckE(terminationId: Id, context: Context, name: AckName, reporter: Reporter, verdict: Verdict,
           errorCode: Option<Text>, now: nat)
    | ConcludeE(terminationId: Id, partially: bool, now: nat)

  function Apply(st: Store, e: Event): Step {
    match e
    case CreateE(context, now) => CreateSession(st, context, now)
    case BeginE(sid, payload, rid, hash, newId, now) => Begin(st, sid, payload, rid, hash, newId, now)
    case RetryE(sid, pid, rid, reason, hash, newId, now) => RetryChild(st, sid, pid, rid, reason, hash, newId, now)
    case AckE(tid, context, name, reporter, verdict, code, now) =>
      RecordAck(st, tid, context, name, reporter, verdict, code, now)
    case ConcludeE(tid, partially, now) => Conclude(st, tid, partially, now)
  }

  /** Random identifiers do not repeat. */
  predicate Legal(st: Store, e: Event) {
    match e
    case BeginE(_, _, _, _, newId, _) => newId !in st.terminations
    case RetryE(_, _, _, _, _, newId, _) => newId !in st.terminations
    case _ => true
  }

  /** The store after the events, where each one is legal when it happens. */
  predicate LegalRun(st: Store, events: seq<Event>)
    decreases |events|
  {
    events == [] || (Legal(st, events[0]) && LegalRun(Apply(st, events[0]).store, events[1..]))
  }

  function Run(st: Store, events: seq<Event>): Store
    decreases |events|
  {
    if events == [] then st else Run(Apply(st, events[0]).store, events[1..])
  }
}
