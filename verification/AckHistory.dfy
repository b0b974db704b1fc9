/** The termination ledger told by its events alone: what is filed and answered is what was last reported, and
    a session is TERMINATED exactly by its last reports (deploy/trtc-sign/termination-store.js:131-192). */
module AckHistory {
  import opened Outcomes
  import opened TerminationContract
  import opened TerminationLedger
  import opened TerminationInvariants
  import opened TerminationTheorems

  // ---------- the six reports that are required ----------

  /** Who has to confirm what. */
  predicate MustConfirm(name: AckName, r: Reporter) {
    || (name == AndroidTrtcLeft && r == Android)
    || (name == SidecarTrtcLeft && r == Sidecar)
    || (name == BridgeDrainedClosed && (r == Sidecar || r == RtcBridge))
    || (name == ApmCancelledClosed && r == RtcBridge)
    || (name == BrainTurnsSealed && r == Brain)
  }

  lemma ReportersAreThose(name: AckName, r: Reporter)
    ensures r in Reporters(name) <==> MustConfirm(name, r)
  {
  }

  // ---------- what the events say ----------

  /** The ledger takes this report when it comes in this state: it answers with a document. */
  predicate Takes(st: Store, e: Event) {
    e.AckE? && Apply(st, e).reply.Ok?
  }

  predicate IsFor(e: Event, tid: Id, name: AckName, r: Reporter) {
    e.AckE? && e.terminationId == tid && e.name == name && e.reporter == r
  }

  /** The last report taken from this reporter on this name of this termination. */
  ghost function LastReport(events: seq<Event>, tid: Id, name: AckName, r: Reporter): Option<Report> {
    if events == [] then None
    else
      var before, e := events[..|events| - 1], events[|events| - 1];
      if IsFor(e, tid, name, r) && Takes(Run(EMPTY, before), e) then Some(Report(e.verdict, e.errorCode, e.now))
      else LastReport(before, tid, name, r)
  }

  /** The report on file. */
  function Filed(st: Store, tid: Id, name: AckName, r: Reporter): Option<Report> {
    if tid in st.terminations && name in st.terminations[tid].reports && r in st.terminations[tid].reports[name]
    then Some(st.terminations[tid].reports[name][r]) else None
  }

  lemma {:induction false} RunAppend(st: Store, events: seq<Event>)
    requires LegalRun(st, events) && events != []
    ensures var before, e := events[..|events| - 1], events[|events| - 1];
      && LegalRun(st, before) && Legal(Run(st, before), e)
      && Run(st, events) == Apply(Run(st, before), e).store
    decreases |events|
  {
    hide Apply, Legal;
    var before := events[..|events| - 1];
    if |events| == 1 {
      assert before == [] && events[1..] == [];
    } else {
      RunAppend(Apply(st, events[0]).store, events[1..]);
      assert before[0] == events[0] && before[1..] == events[1..][..|events| - 2];
      assert events[1..][|events| - 2] == events[|events| - 1];
    }
  }

  // ---------- one event ----------

  lemma ReportFiles(t: Termination, name: AckName, reporter: Reporter, report: Report, now: nat,
        n: AckName, r: Reporter)
    ensures var t' := WithReport(t, name, reporter, report, now);
      && (n == name && r == reporter ==> n in t'.reports && r in t'.reports[n] && t'.reports[n][r] == report)
      && (n != name || r != reporter ==>
            && (n in t'.reports && r in t'.reports[n] <==> n in t.reports && r in t.reports[n])
            && (n in t.reports && r in t.reports[n] ==> t'.reports[n][r] == t.reports[n][r]))
  {
    hide Aggregate, AllConfirmed;
  }

  lemma AckFiles(st: Store, e: Event, tid: Id, name: AckName, r: Reporter)
    requires e.AckE?
    ensures Filed(Apply(st, e).store, tid, name, r)
      == if IsFor(e, tid, name, r) && Takes(st, e) then Some(Report(e.verdict, e.errorCode, e.now))
         else Filed(st, tid, name, r)
    ensures Takes(st, e) ==>
      && e.terminationId in Apply(st, e).store.terminations
      && Apply(st, e).reply
         == Ok(OfTermination(e.terminationId, Apply(st, e).store.terminations[e.terminationId]))
  {
    if Takes(st, e) && tid == e.terminationId {
      ReportFiles(st.terminations[e.terminationId], e.name, e.reporter, Report(e.verdict, e.errorCode, e.now),
                  e.now, name, r);
    }
    hide WithReport, Reporters;
  }

  /** A step that files no report: documents keep theirs, and a new one has none. */
  ghost predicate KeepsReports(st: Store, st': Store) {
    forall tid :: tid in st'.terminations ==>
      st'.terminations[tid].reports == if tid in st.terminations then st.terminations[tid].reports else map[]
  }

  lemma BeginKeepsReports(st: Store, st': Store, e: Event)
    requires BeginDoes(st, st', e)
    ensures KeepsReports(st, st')
  {
    hide RequestKey, InitialAcks;
  }

  lemma RetryKeepsReports(st: Store, st': Store, e: Event)
    requires RetryDoes(st, st', e)
    ensures KeepsReports(st, st')
  {
    hide RequestKey, InheritedAcks, ConfirmedNames;
  }

  lemma OtherKeepsReports(st: Store, e: Event)
    requires Legal(st, e) && !e.AckE?
    ensures KeepsReports(st, Apply(st, e).store)
    ensures forall tid :: tid in st.terminations ==> tid in Apply(st, e).store.terminations
  {
    var st' := Apply(st, e).store;
    StepPersists(st, e);
    if e.BeginE? {
      BeginEffect(st, e);
      hide Apply, BeginDoes, FilesPersist;
      if st' != st { BeginKeepsReports(st, st', e); }
    } else if e.RetryE? {
      RetryEffect(st, e);
      hide Apply, RetryDoes, FilesPersist;
      if st' != st { RetryKeepsReports(st, st', e); }
    }
  }

  lemma OtherFiles(st: Store, e: Event, tid: Id, name: AckName, r: Reporter)
    requires Legal(st, e) && !e.AckE?
    ensures Filed(Apply(st, e).store, tid, name, r) == Filed(st, tid, name, r)
  {
    OtherKeepsReports(st, e);
    hide Apply;
  }

  // ---------- what is on file ----------

  /** In every reachable store the report on file is the last one taken: its verdict, its error code and its
      time, for every termination, name and reporter, and none where none was taken. */
  lemma {:induction false} FiledIsTheLastReport(events: seq<Event>, tid: Id, name: AckName, r: Reporter)
    requires LegalRun(EMPTY, events)
    ensures Filed(Run(EMPTY, events), tid, name, r) == LastReport(events, tid, name, r)
    decreases |events|
  {
    if events != [] {
      var before, e := events[..|events| - 1], events[|events| - 1];
      RunAppend(EMPTY, events);
      FiledIsTheLastReport(before, tid, name, r);
      hide Apply, Filed, Legal;
      var st := Run(EMPTY, before);
      if e.AckE? { AckFiles(st, e, tid, name, r); } else { OtherFiles(st, e, tid, name, r); }
    }
  }

  /** A report is taken in every reachable store exactly when it comes in the termination's own context, while
      the termination is pending, on a name not inherited, from a reporter who must confirm it. Then the
      answer is the document as filed; otherwise nothing changes. */
  lemma ReportIsTakenIff(st: Store, e: Event)
    requires e.AckE?
    ensures Takes(st, e)
      <==> && e.terminationId in st.terminations
           && var t := st.terminations[e.terminationId];
              && t.sessionId == e.context.sessionId && t.deviceId == e.context.deviceId
              && t.roomId == e.context.roomId && t.generation == e.context.generation
              && t.result == Pending && e.name !in t.inherited && MustConfirm(e.name, e.reporter)
    ensures !Takes(st, e) ==>
      && Apply(st, e).store == st
      && Apply(st, e).reply == Err(if e.terminationId in st.terminations then 40901 else 40403)
    ensures Takes(st, e) ==>
      && e.terminationId in Apply(st, e).store.terminations
      && Apply(st, e).reply
         == Ok(OfTermination(e.terminationId, Apply(st, e).store.terminations[e.terminationId]))
  {
    ReportersAreThose(e.name, e.reporter);
    hide WithReport, Reporters;
  }

  // ---------- what an acknowledgement reads ----------

  ghost predicate LastSays(events: seq<Event>, tid: Id, name: AckName, r: Reporter, verdict: Verdict) {
    LastReport(events, tid, name, r).Some? && LastReport(events, tid, name, r).value.verdict == verdict
  }

  /** Every reporter who must confirm the name last said so. */
  ghost predicate AllLastConfirmed(events: seq<Event>, tid: Id, name: AckName) {
    forall r :: MustConfirm(name, r) ==> LastSays(events, tid, name, r, Confirmed)
  }

  ghost predicate SomeLastFailed(events: seq<Event>, tid: Id, name: AckName) {
    exists r :: LastSays(events, tid, name, r, Failed)
  }

  lemma SaysAsFiled(events: seq<Event>, tid: Id, name: AckName, r: Reporter)
    requires LegalRun(EMPTY, events) && tid in Run(EMPTY, events).terminations
    ensures var t := Run(EMPTY, events).terminations[tid];
      && (r in ReportsOn(t, name) <==> LastReport(events, tid, name, r).Some?)
      && (r in ReportsOn(t, name) ==> ReportsOn(t, name)[r] == LastReport(events, tid, name, r).value)
  {
    FiledIsTheLastReport(events, tid, name, r);
    hide LastReport, Run;
  }

  /** In every reachable store an acknowledgement that was not inherited reads failed if and only if some
      reporter last said so, confirmed if and only if everyone who must confirm last did, and is pending
      otherwise; an inherited one reads confirmed and nothing was ever reported on it. */
  lemma AckReadsWhatWasLastSaid(events: seq<Event>, tid: Id, name: AckName)
    requires LegalRun(EMPTY, events) && tid in Run(EMPTY, events).terminations
    ensures var t := Run(EMPTY, events).terminations[tid];
      && name in t.acks
      && (name !in t.inherited ==>
            && (t.acks[name] == AckFailed <==> SomeLastFailed(events, tid, name))
            && (t.acks[name] == AckConfirmed <==> AllLastConfirmed(events, tid, name)))
      && (name in t.inherited ==>
            t.acks[name] == AckConfirmed && forall r :: LastReport(events, tid, name, r).None?)
  {
    var st := Run(EMPTY, events);
    var ch := RunKeeps(EMPTY, map[], events);
    assert RecordOk(st, tid) && NameOk(st.terminations[tid], name);
    forall r
      ensures r in Reporters(name) <==> MustConfirm(name, r)
      ensures r in ReportsOn(st.terminations[tid], name) <==> LastReport(events, tid, name, r).Some?
      ensures r in ReportsOn(st.terminations[tid], name) ==>
                ReportsOn(st.terminations[tid], name)[r] == LastReport(events, tid, name, r).value
    {
      ReportersAreThose(name, r);
      SaysAsFiled(events, tid, name, r);
    }
    hide Reporters, MustConfirm, LastReport, Run, Inv, LegalRun, ReportsOn;
    AggregateSays(st.terminations[tid], events, tid, name);
  }

  lemma AggregateSays(t: Termination, events: seq<Event>, tid: Id, name: AckName)
    requires NameOk(t, name)
    requires forall r :: r in Reporters(name) <==> MustConfirm(name, r)
    requires forall r :: r in ReportsOn(t, name) <==> LastReport(events, tid, name, r).Some?
    requires forall r :: r in ReportsOn(t, name) ==> ReportsOn(t, name)[r] == LastReport(events, tid, name, r).value
    ensures name in t.acks
    ensures name !in t.inherited ==> (t.acks[name] == AckFailed <==> SomeLastFailed(events, tid, name))
    ensures name !in t.inherited ==> (t.acks[name] == AckConfirmed <==> AllLastConfirmed(events, tid, name))
    ensures name in t.inherited ==>
              t.acks[name] == AckConfirmed && forall r :: LastReport(events, tid, name, r).None?
  {
    hide LastReport, MustConfirm, Reporters;
    if name !in t.inherited {
      var latest := ReportsOn(t, name);
      assert (exists r | r in latest :: latest[r].verdict == Failed) <==> SomeLastFailed(events, tid, name) by {
        if r :| r in latest && latest[r].verdict == Failed { assert LastSays(events, tid, name, r, Failed); }
        if r :| LastSays(events, tid, name, r, Failed) { assert r in latest && latest[r].verdict == Failed; }
      }
      assert (forall r | r in Reporters(name) :: r in latest && latest[r].verdict == Confirmed)
        <==> AllLastConfirmed(events, tid, name);
      var who := Someone(name);
    }
  }

  lemma Someone(name: AckName) returns (r: Reporter)
    ensures r in Reporters(name)
  {
    r :| r in Reporters(name);
  }

  // ---------- the five-way quorum, by events ----------

  lemma QuorumIsLastConfirmed(events: seq<Event>, tid: Id, name: AckName)
    requires LegalRun(EMPTY, events) && tid in Run(EMPTY, events).terminations
    ensures QuorumAt(Run(EMPTY, events).terminations[tid], name) <==> AllLastConfirmed(events, tid, name)
  {
    forall r
      ensures r in Reporters(name) <==> MustConfirm(name, r)
      ensures var t := Run(EMPTY, events).terminations[tid];
        && (r in ReportsOn(t, name) <==> LastReport(events, tid, name, r).Some?)
        && (r in ReportsOn(t, name) ==> ReportsOn(t, name)[r] == LastReport(events, tid, name, r).value)
    {
      ReportersAreThose(name, r);
      SaysAsFiled(events, tid, name, r);
    }
    hide Reporters, MustConfirm, LastReport, Run, ReportsOn;
  }

  /** Some termination of the chain had the name confirmed last by everyone who must. */
  ghost predicate ConfirmedSomewhere(events: seq<Event>, c: seq<Id>, name: AckName) {
    exists i :: 0 <= i < |c| && AllLastConfirmed(events, c[i], name)
  }

  /** The five-way quorum by events alone: after every run a session is TERMINATED exactly when each of the five
      names was, on some termination of its chain, last reported confirmed by everyone who must confirm it. */
  lemma TerminatedByLastReports(events: seq<Event>, sid: Id, c: seq<Id>)
    requires LegalRun(EMPTY, events) && sid in Run(EMPTY, events).sessions && IsChain(Run(EMPTY, events), sid, c)
    ensures Run(EMPTY, events).sessions[sid].state == Terminated
      <==> forall name: AckName :: ConfirmedSomewhere(events, c, name)
  {
    var st := Run(EMPTY, events);
    FiveWayQuorum(st, sid, c);
    forall name: AckName ensures HoldsQuorum(st, c, name) <==> ConfirmedSomewhere(events, c, name) {
      ChainQuorum(events, sid, c, name);
    }
  }

  lemma ChainQuorum(events: seq<Event>, sid: Id, c: seq<Id>, name: AckName)
    requires LegalRun(EMPTY, events) && IsChain(Run(EMPTY, events), sid, c)
    ensures HoldsQuorum(Run(EMPTY, events), c, name) <==> ConfirmedSomewhere(events, c, name)
  {
    var st := Run(EMPTY, events);
    forall i | 0 <= i < |c|
      ensures c[i] in st.terminations
      ensures QuorumAt(st.terminations[c[i]], name) <==> AllLastConfirmed(events, c[i], name)
    {
      assert LinkAt(st, sid, c, i);
      QuorumIsLastConfirmed(events, c[i], name);
    }
    hide QuorumAt, AllLastConfirmed, IsChain, Run;
  }

  /** One failed report of the last word keeps its name, and with it the termination, from completing. */
  lemma FailureBlocks(events: seq<Event>, tid: Id, name: AckName, r: Reporter)
    requires LegalRun(EMPTY, events) && tid in Run(EMPTY, events).terminations
    requires LastSays(events, tid, name, r, Failed)
    ensures Run(EMPTY, events).terminations[tid].result != Complete
  {
    var ch := RunKeeps(EMPTY, map[], events);
    assert RecordOk(Run(EMPTY, events), tid);
    AckReadsWhatWasLastSaid(events, tid, name);
    assert SomeLastFailed(events, tid, name);
  }

  // ---------- when a termination finished ----------

  /** The time of the event with which the termination stopped being pending. */
  ghost function FinishedAt(events: seq<Event>, tid: Id): Option<nat> {
    if events == [] then None
    else
      var before, e := events[..|events| - 1], events[|events| - 1];
      var st, st' := Run(EMPTY, before), Apply(Run(EMPTY, before), e).store;
      if tid in st.terminations && st.terminations[tid].result == Pending && st'.terminations != st.terminations
         && tid in st'.terminations && st'.terminations[tid].result != Pending
      then Some(e.now) else FinishedAt(before, tid)
  }

  ghost predicate FinishOk(st: Store, tid: Id, finished: Option<nat>) {
    if tid in st.terminations
    then st.terminations[tid].terminalAt == finished && (finished.Some? <==> st.terminations[tid].result != Pending)
    else finished.None?
  }

  lemma FinishStep(st: Store, e: Event, tid: Id, finished: Option<nat>)
    requires Legal(st, e) && FinishOk(st, tid, finished)
    ensures var st' := Apply(st, e).store;
      FinishOk(st', tid,
        if tid in st.terminations && st.terminations[tid].result == Pending && st'.terminations != st.terminations
           && tid in st'.terminations && st'.terminations[tid].result != Pending
        then Some(e.now) else finished)
  {
    if e.BeginE? {
      BeginEffect(st, e);
      hide Apply, InitialAcks;
    } else if e.RetryE? {
      RetryEffect(st, e);
      hide Apply, InheritedAcks, ConfirmedNames;
    } else {
      hide Aggregate, AllConfirmed, Reporters;
    }
  }

  lemma NothingFinished(tid: Id)
    ensures FinishOk(EMPTY, tid, None)
  {
  }

  /** In every reachable store `terminalAt` is the time of the event that ended the termination, and is set
      exactly when it is no longer pending. */
  lemma {:induction false} TerminalAtIsTheFinish(events: seq<Event>, tid: Id)
    requires LegalRun(EMPTY, events)
    ensures FinishOk(Run(EMPTY, events), tid, FinishedAt(events, tid))
    decreases |events|
  {
    hide FinishOk;
    if events == [] {
      NothingFinished(tid);
    } else {
      var before, e := events[..|events| - 1], events[|events| - 1];
      RunAppend(EMPTY, events);
      TerminalAtIsTheFinish(before, tid);
      hide Apply, Legal;
      FinishStep(Run(EMPTY, before), e, tid, FinishedAt(before, tid));
    }
  }
}
