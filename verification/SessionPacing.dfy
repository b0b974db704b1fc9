/** The pacing bound of the shaper over whole sessions: audio, interrupts, re-entries and cloud events come
    between its pops and sends (backend/rtc_bridge/session.py, backend/rtc_bridge/shaper.py). */
module SessionPacing {
  import opened Outcomes
  import S = Shaper
  import opened Session
  import SessionOrder

  /** History of a run: when each frame was sent, how many had been when the current busy period began, and when
      that was. A busy period begins with the first pop that finds a young frame after one that found none. No
      code reads it. */
  datatype Log = Log(times: seq<real>, from: nat, start: Option<real>)

  const NOTHING_SENT := Log([], 0, None)

  ghost function Record(s: State, e: Event, log: Log): Log {
    if e.Send? then log.(times := log.times + [e.now])
    else if e.Take? && !S.FindsYoung(s.shaper.queue, e.now) then Log(log.times, |log.times|, None)
    else if e.Take? && log.start.None? then Log(log.times, |log.times|, Some(e.now))
    else log
  }

  ghost function RunLog(c: Config, s: State, events: seq<Event>, log: Log): Log
    requires s.shaper.frameBytes > 0 && LegalRun(c, s, events)
    decreases |events|
  {
    if events == [] then log else RunLog(c, Step(c, s, events[0]), events[1..], Record(s, events[0], log))
  }

  /** The frames of the current busy period. */
  function Period(log: Log): S.Log
    requires log.from <= |log.times|
  {
    S.Log(log.start, log.times[log.from..])
  }

  /** One time for every frame on the wire, in order and in the past, and those of the busy period paced. */
  ghost predicate Kept(c: Config, s: State, log: Log) {
    && s.shaper.frameBytes > 0 && s.shaper.frameS == c.frameS
    && |log.times| == |SessionOrder.FramesIn(s.sent)| && log.from <= |log.times|
    && (forall i :: 0 <= i < |log.times| ==> log.times[i] <= s.clock)
    && S.Paced(s.shaper, Period(log))
    && (log.start.Some? ==> log.start.value <= s.clock)
  }

  /** Only pops and sends touch the variables of the pacing coroutine. */
  lemma OthersLeavePacing(c: Config, s: State, e: Event)
    requires s.shaper.frameBytes > 0 && Enabled(s, e) && !e.Take? && !e.Send?
    ensures var t := Step(c, s, e);
      && t.shaper.t0 == s.shaper.t0 && t.shaper.n == s.shaper.n && t.shaper.held == s.shaper.held
      && t.shaper.frameS == s.shaper.frameS
      && (t.sent == s.sent || t.sent == s.sent + [FlushDownlink])
  {
    hide S.PushAll, S.CutBy, S.Take;
    match e
    case UpAudio(now, loud) => assert Step(c, s, e) == OnUpAudio(c, s, now, loud);
    case AudioOut(now, pcm) => assert Step(c, s, e) == OnAudioOut(c, s, now, pcm);
    case CheckSpeakingOver(now, sb, ab) => assert Step(c, s, e) == OnCheckSpeakingOver(c, s, now, sb, ab);
    case _ =>
  }

  lemma PacedAlike(s: S.Shaper, t: S.Shaper, period: S.Log)
    requires S.Paced(s, period) && t.t0 == s.t0 && t.n == s.n && t.held == s.held && t.frameS == s.frameS
    ensures S.Paced(t, period)
  {
    if s.t0.Some? {
      forall j: nat ensures S.Due(t, j) == S.Due(s, j) {}
    }
  }

  lemma OtherKept(c: Config, s: State, e: Event, log: Log)
    requires Kept(c, s, log) && Enabled(s, e) && !e.Take? && !e.Send?
    ensures Kept(c, Step(c, s, e), Record(s, e, log))
  {
    OthersLeavePacing(c, s, e);
    SessionOrder.FlushIsNoFrame(s.sent);
    PacedAlike(s.shaper, Step(c, s, e).shaper, Period(log));
    hide S.Paced, SessionOrder.FramesIn;
  }

  lemma TakeKept(c: Config, s: State, e: Event, log: Log)
    requires Kept(c, s, log) && Enabled(s, e) && e.Take?
    ensures Kept(c, Step(c, s, e), Record(s, e, log))
  {
    var t := Step(c, s, e);
    assert t == OnTake(s, e.now);
    assert t.shaper == S.Take(s.shaper, e.now) && t.sent == s.sent && t.shaper.frameS == s.shaper.frameS;
    S.StepPaced(s.shaper, S.TakeE(e.now), Period(log));
    assert log.times[|log.times|..] == [];
    hide S.Take, SessionOrder.FramesIn, S.FindsYoung, S.Paced;
    assert Period(Record(s, e, log)) == S.Record(s.shaper, S.TakeE(e.now), Period(log));
  }

  lemma SendKept(c: Config, s: State, e: Event, log: Log)
    requires Kept(c, s, log) && Enabled(s, e) && e.Send?
    ensures Kept(c, Step(c, s, e), Record(s, e, log))
  {
    var t := Step(c, s, e);
    assert t == OnSend(s, e.now) && t.shaper == S.Sent(s.shaper);
    S.StepPaced(s.shaper, S.SendE(e.now), Period(log));
    assert (log.times + [e.now])[log.from..] == log.times[log.from..] + [e.now];
    SessionOrder.FramesInAppend(s.sent, DownAudio(s.shaper.held.value.entry));
    hide S.Paced, SessionOrder.FramesIn;
  }

  lemma {:induction false} RunKept(c: Config, s: State, events: seq<Event>, log: Log)
    requires s.shaper.frameBytes > 0 && LegalRun(c, s, events) && Kept(c, s, log)
    ensures Kept(c, Run(c, s, events), RunLog(c, s, events, log))
    decreases |events|
  {
    hide Step, Kept, Record;
    if events != [] {
      var e := events[0];
      if e.Take? { TakeKept(c, s, e, log); }
      else if e.Send? { SendKept(c, s, e, log); }
      else { OtherKept(c, s, e, log); }
      RunKept(c, Step(c, s, e), events[1..], Record(s, e, log));
    }
  }

  lemma StartKept(c: Config, clock: real)
    requires ValidConfig(c)
    ensures Kept(c, Init(c, clock), NOTHING_SENT)
  {
  }

  /** The pacing bound, over every session: by any time of it, a busy period has put at most
      1 + floor((t - start + 2 ms) / frame) frames on the wire, whatever was interrupted, discarded or pushed in
      between, however late earlier frames ran and however long the silence before it was. */
  lemma SessionsSendNoFaster(c: Config, clock: real, events: seq<Event>)
    requires ValidConfig(c) && LegalRun(c, Init(c, clock), events)
    ensures var s := Run(c, Init(c, clock), events);
            var log := RunLog(c, Init(c, clock), events, NOTHING_SENT);
            && |log.times| == |SessionOrder.FramesIn(s.sent)| && log.from <= |log.times|
            && (log.start.None? ==> log.from == |log.times|)
            && (log.start.Some? ==>
                  |log.times| - log.from <= 1 + ((s.clock - log.start.value + 0.002) / c.frameS).Floor)
  {
    var s := Run(c, Init(c, clock), events);
    var log := RunLog(c, Init(c, clock), events, NOTHING_SENT);
    StartKept(c, clock);
    RunKept(c, Init(c, clock), events, NOTHING_SENT);
    if log.start.Some? {
      if log.from < |log.times| {
        S.PacedBound(s.shaper, Period(log), s.clock);
      } else {
        S.QuotientBound(0, c.frameS, s.clock - log.start.value + 0.002);
      }
    }
  }

  /** And no slower: over every session a pop takes the first queued frame that is still young, and that frame
      may be sent in its slot, or at once when the slot is not more than 2 ms ahead. */
  lemma SessionsSendInTheirSlots(c: Config, clock: real, events: seq<Event>, now: real, i: nat)
    requires ValidConfig(c) && LegalRun(c, Init(c, clock), events)
    requires var s := Run(c, Init(c, clock), events);
             s.shaper.held == None && now >= s.clock && S.FirstYoung(s.shaper.queue, now, i)
    ensures var s := Run(c, Init(c, clock), events);
            var log := RunLog(c, Init(c, clock), events, NOTHING_SENT);
            && log.from <= |log.times|
            && var start := if log.start.None? then now else log.start.value;
            var wake := S.WakeFor(S.Slot(start, |log.times| - log.from, c.frameS), now);
            var t := OnTake(s, now);
            && t.shaper.held == Some(S.Held(s.shaper.queue.entries[i], wake))
            && t.shaper.queue.entries == s.shaper.queue.entries[i + 1..]
  {
    var s := Run(c, Init(c, clock), events);
    var log := RunLog(c, Init(c, clock), events, NOTHING_SENT);
    StartKept(c, clock);
    hide Step, Kept, Record, Run, RunLog, LegalRun, Init, OnTake, S.FirstYoung, S.Take, SessionOrder.FramesIn;
    hide S.Slot, S.WakeFor;
    RunKept(c, Init(c, clock), events, NOTHING_SENT);
    SlotOfTheNext(c, s, log, now, i);
  }

  lemma SlotOfTheNext(c: Config, s: State, log: Log, now: real, i: nat)
    requires Kept(c, s, log) && s.shaper.held == None && S.FirstYoung(s.shaper.queue, now, i)
    ensures var start := if log.start.None? then now else log.start.value;
            var wake := S.WakeFor(S.Slot(start, |log.times| - log.from, c.frameS), now);
            var t := OnTake(s, now);
            && t.shaper.held == Some(S.Held(s.shaper.queue.entries[i], wake))
            && t.shaper.queue.entries == s.shaper.queue.entries[i + 1..]
  {
    assert OnTake(s, now).shaper == S.Take(s.shaper, now) && S.FindsYoung(s.shaper.queue, now);
    assert log.start.None? ==> |log.times| == log.from;
    hide OnTake, S.Take, S.FirstYoung, S.FindsYoung, SessionOrder.FramesIn, S.Paced, S.Due, S.Slot, S.WakeFor;
    S.TakePaced(s.shaper, now, Period(log));
    S.TakesTheFirstYoung(s.shaper, now, i);
    assert |Period(log).sends| == |log.times| - log.from;
  }
}
