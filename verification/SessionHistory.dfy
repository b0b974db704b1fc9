/** The windows of a voice session told by its events alone (backend/rtc_bridge/session.py): when playback
    speaks, which audio is discarded and why, when standby is requested and when it holds. Every predicate of the
    first part looks at the events only; the session is proved to agree with it. */
module SessionHistory {
  import opened FrameBuffer
  import S = Shaper
  import opened Session

  // ---------- what the events say ----------

  function Before(events: seq<Event>): seq<Event>
    requires events != []
  {
    events[..|events| - 1]
  }

  function Last(events: seq<Event>): Event
    requires events != []
  {
    events[|events| - 1]
  }

  /** More than 0.6 s of silence are noticed while playback speaks. */
  ghost predicate SpellEnds(c: Config, events: seq<Event>, e: Event)
    decreases |events|, 1
  {
    e.CheckSpeakingOver? && Speaks(c, events) && e.now - LastAudio(c, events) > 0.6
  }

  /** Playback speaks: audio that was not muted came after the last silence and re-entry. */
  ghost predicate Speaks(c: Config, events: seq<Event>)
    decreases |events|, 0
  {
    events != [] &&
    var past, e := Before(events), Last(events);
    if Audible(c, past, e) then true
    else Speaks(c, past) && !SpellEnds(c, past, e) && !e.PeerEnter?
  }

  /** Audio that starts or continues a spell: not in standby, and not in an interruption unless a marker has
      already ended the reply. */
  ghost predicate Audible(c: Config, events: seq<Event>, e: Event)
    decreases |events|, 2
  {
    e.AudioOut? && !InStandby(c, events) && (Trailing(c, events) || !Interrupted(c, events))
  }

  ghost function LastAudio(c: Config, events: seq<Event>): real
    decreases |events|, 0
  {
    if events == [] then 0.0
    else
      var past, e := Before(events), Last(events);
      if Audible(c, past, e) then e.now else if e.PeerEnter? then 0.0 else LastAudio(c, past)
  }

  ghost function SpellStart(c: Config, events: seq<Event>): real
    decreases |events|, 0
  {
    if events == [] then 0.0
    else
      var past, e := Before(events), Last(events);
      if Audible(c, past, e) && !Speaks(c, past) then e.now else SpellStart(c, past)
  }

  /** A loud uplink frame, past the grace period of a spell that is not interrupted yet. */
  ghost predicate SpeaksUp(c: Config, events: seq<Event>, e: Event)
    decreases |events|, 1
  {
    && e.UpAudio? && c.localBargeIn && e.loud
    && Speaks(c, events) && !Interrupted(c, events) && e.now - SpellStart(c, events) >= c.bargeGraceS
  }

  /** How many such frames came in a row. */
  ghost function LoudRun(c: Config, events: seq<Event>): nat
    decreases |events|, 0
  {
    if events == [] then 0
    else
      var past, e := Before(events), Last(events);
      if e.UpAudio? && c.localBargeIn then
        if SpeaksUp(c, past, e) && LoudRun(c, past) + 1 < c.bargeSustainFrames then LoudRun(c, past) + 1 else 0
      else if e.CloudSpeechEnds? || (Audible(c, past, e) && !Speaks(c, past)) then 0
      else LoudRun(c, past)
  }

  /** The user interrupts: enough loud frames in a row, or the cloud's word for it. */
  ghost predicate Interrupts(c: Config, events: seq<Event>, e: Event)
    decreases |events|, 2
  {
    e.CloudSpeechEnds? || (SpeaksUp(c, events, e) && LoudRun(c, events) + 1 >= c.bargeSustainFrames)
  }

  /** An interruption lasts until silence ends the spell or a peer re-enters. */
  ghost predicate Interrupted(c: Config, events: seq<Event>)
    decreases |events|, 0
  {
    events != [] &&
    var past, e := Before(events), Last(events);
    Interrupts(c, past, e) || (Interrupted(c, past) && !SpellEnds(c, past, e) && !e.PeerEnter?)
  }

  /** A marker that counts: in a text delta outside an interruption, or left in the router's buffer when an
      utterance ends undisturbed. */
  ghost predicate AsksStandby(c: Config, events: seq<Event>, e: Event)
    decreases |events|, 2
  {
    || (e.Text? && e.standbyMarker && !Interrupted(c, events))
    || (UtteranceEnds(c, events, e) && e.standbyBuffered)
  }

  ghost predicate AsksActive(c: Config, events: seq<Event>, e: Event)
    decreases |events|, 2
  {
    || (e.Text? && e.activeMarker && !Interrupted(c, events))
    || (UtteranceEnds(c, events, e) && e.activeBuffered)
  }

  ghost predicate UtteranceEnds(c: Config, events: seq<Event>, e: Event)
    decreases |events|, 1
  {
    c.hasRouter && e.CheckSpeakingOver? && Speaks(c, events) && e.now - LastAudio(c, events) > 0.6
    && !Interrupted(c, events)
  }

  /** After a marker the rest of the reply is dropped, until silence or a re-entry. */
  ghost predicate Trailing(c: Config, events: seq<Event>)
    decreases |events|, 0
  {
    events != [] &&
    var past, e := Before(events), Last(events);
    || AsksStandby(c, past, e) || AsksActive(c, past, e)
    || (Trailing(c, past) && !SpellEnds(c, past, e) && !e.PeerEnter?)
  }

  /** Standby is requested: of the markers since the last spell end and re-entry, a [STANDBY] was the last, and
      not in one delta with [ACTIVE]. Where there is no router a request survives an undisturbed spell end. */
  ghost predicate StandbyRequested(c: Config, events: seq<Event>)
    decreases |events|, 0
  {
    events != [] &&
    var past, e := Before(events), Last(events);
    if e.PeerEnter? || AsksActive(c, past, e) then false
    else if SpellEnds(c, past, e) && (c.hasRouter || Interrupted(c, past)) then false
    else AsksStandby(c, past, e) || StandbyRequested(c, past)
  }

  /** Standby holds: an utterance ended with a request for it, and no [ACTIVE] and no re-entry came since. */
  ghost predicate InStandby(c: Config, events: seq<Event>)
    decreases |events|, 0
  {
    events != [] &&
    var past, e := Before(events), Last(events);
    if e.PeerEnter? || AsksActive(c, past, e) then false
    else (UtteranceEnds(c, past, e) && (e.standbyBuffered || StandbyRequested(c, past))) || InStandby(c, past)
  }

  // ---------- the session agrees ----------

  ghost predicate Agrees(c: Config, s: State, events: seq<Event>) {
    && s.downSpeaking == Speaks(c, events) && s.lastDownTs == LastAudio(c, events)
    && s.downSpeakingSince == SpellStart(c, events) && s.bargeRun == LoudRun(c, events)
    && s.bargeIn == Interrupted(c, events) && s.markerTailDrop == Trailing(c, events)
    && s.standbyPending == StandbyRequested(c, events) && s.standby == InStandby(c, events)
  }

  lemma {:induction false} Unroll(c: Config, s: State, events: seq<Event>)
    requires s.shaper.frameBytes > 0 && LegalRun(c, s, events) && events != []
    ensures LegalRun(c, s, Before(events)) && Run(c, s, Before(events)).shaper.frameBytes > 0
    ensures Enabled(Run(c, s, Before(events)), Last(events))
    ensures Run(c, s, events) == Step(c, Run(c, s, Before(events)), Last(events))
    decreases |events|
  {
    hide Step, Enabled;
    var past := Before(events);
    if |events| == 1 {
      assert past == [] && events[1..] == [];
    } else {
      Unroll(c, Step(c, s, events[0]), events[1..]);
      assert past[0] == events[0] && past[1..] == Before(events[1..]) && Last(events[1..]) == Last(events);
    }
  }

  /** What one more event makes of the history. */
  lemma {:induction false} OneMore(c: Config, past: seq<Event>, e: Event)
    ensures Speaks(c, past + [e])
      == (Audible(c, past, e) || (Speaks(c, past) && !SpellEnds(c, past, e) && !e.PeerEnter?))
    ensures LastAudio(c, past + [e])
      == if Audible(c, past, e) then e.now else if e.PeerEnter? then 0.0 else LastAudio(c, past)
    ensures SpellStart(c, past + [e])
      == if Audible(c, past, e) && !Speaks(c, past) then e.now else SpellStart(c, past)
    ensures LoudRun(c, past + [e])
      == if e.UpAudio? && c.localBargeIn then
           if SpeaksUp(c, past, e) && LoudRun(c, past) + 1 < c.bargeSustainFrames then LoudRun(c, past) + 1 else 0
         else if e.CloudSpeechEnds? || (Audible(c, past, e) && !Speaks(c, past)) then 0
         else LoudRun(c, past)
    ensures Interrupted(c, past + [e])
      == (Interrupts(c, past, e) || (Interrupted(c, past) && !SpellEnds(c, past, e) && !e.PeerEnter?))
  {
    var all := past + [e];
    assert Before(all) == past && Last(all) == e;
    hide Audible, SpellEnds, SpeaksUp, Interrupts;
  }

  lemma {:induction false} OneMoreMarker(c: Config, past: seq<Event>, e: Event)
    ensures Trailing(c, past + [e])
      == (AsksStandby(c, past, e) || AsksActive(c, past, e)
          || (Trailing(c, past) && !SpellEnds(c, past, e) && !e.PeerEnter?))
    ensures StandbyRequested(c, past + [e])
      == if e.PeerEnter? || AsksActive(c, past, e) then false
         else if SpellEnds(c, past, e) && (c.hasRouter || Interrupted(c, past)) then false
         else AsksStandby(c, past, e) || StandbyRequested(c, past)
    ensures InStandby(c, past + [e])
      == if e.PeerEnter? || AsksActive(c, past, e) then false
         else (UtteranceEnds(c, past, e) && (e.standbyBuffered || StandbyRequested(c, past))) || InStandby(c, past)
  {
    var all := past + [e];
    assert Before(all) == past && Last(all) == e;
    hide SpellEnds, AsksStandby, AsksActive, UtteranceEnds, Interrupted;
  }

  predicate Silence(s: State, e: Event) {
    e.CheckSpeakingOver? && s.downSpeaking && e.now - s.lastDownTs > 0.6
  }

  predicate Heard(s: State, e: Event) {
    e.AudioOut? && !s.standby && (s.markerTailDrop || !s.bargeIn)
  }

  predicate Loud(c: Config, s: State, e: Event) {
    && e.UpAudio? && c.localBargeIn && e.loud
    && s.downSpeaking && !s.bargeIn && e.now - s.downSpeakingSince >= c.bargeGraceS
  }

  /** What an event means, read off the state. */
  ghost predicate Reads(c: Config, s: State, past: seq<Event>, e: Event) {
    var ends := Silence(s, e);
    && SpellEnds(c, past, e) == ends && Audible(c, past, e) == Heard(s, e) && SpeaksUp(c, past, e) == Loud(c, s, e)
    && Interrupts(c, past, e) == (e.CloudSpeechEnds? || (Loud(c, s, e) && s.bargeRun + 1 >= c.bargeSustainFrames))
    && UtteranceEnds(c, past, e) == (c.hasRouter && ends && !s.bargeIn)
    && AsksStandby(c, past, e) == ((e.Text? && e.standbyMarker && !s.bargeIn)
                                   || (c.hasRouter && ends && !s.bargeIn && e.standbyBuffered))
    && AsksActive(c, past, e) == ((e.Text? && e.activeMarker && !s.bargeIn)
                                  || (c.hasRouter && ends && !s.bargeIn && e.activeBuffered))
  }

  lemma {:induction false} ReadsRight(c: Config, s: State, past: seq<Event>, e: Event)
    requires Agrees(c, s, past)
    ensures Reads(c, s, past, e)
  {
    assert SpellEnds(c, past, e) == Silence(s, e);
    assert UtteranceEnds(c, past, e) == (c.hasRouter && Silence(s, e) && !s.bargeIn);
    assert SpeaksUp(c, past, e) == Loud(c, s, e);
  }

  /** What a step makes of the flags of playback ... */
  lemma PlaybackAfter(c: Config, s: State, e: Event)
    requires s.shaper.frameBytes > 0 && Enabled(s, e)
    ensures var t := Step(c, s, e);
      && t.downSpeaking == (Heard(s, e) || (s.downSpeaking && !Silence(s, e) && !e.PeerEnter?))
      && t.lastDownTs == (if Heard(s, e) then e.now else if e.PeerEnter? then 0.0 else s.lastDownTs)
      && t.downSpeakingSince == (if Heard(s, e) && !s.downSpeaking then e.now else s.downSpeakingSince)
  {
    hide S.Reset, S.Push, S.BeginReply, S.Take, S.Sent;
    match e
    case UpAudio(now, loud) => assert Step(c, s, e) == OnUpAudio(c, s, now, loud);
    case AudioOut(now, pcm) => assert Step(c, s, e) == OnAudioOut(c, s, now, pcm);
    case CheckSpeakingOver(now, sb, ab) => assert Step(c, s, e) == OnCheckSpeakingOver(c, s, now, sb, ab);
    case Text(sm, am) => assert Step(c, s, e) == OnText(s, sm, am);
    case _ =>
  }

  /** ... of interruptions ... */
  lemma InterruptionAfter(c: Config, s: State, e: Event)
    requires s.shaper.frameBytes > 0 && Enabled(s, e)
    ensures var t := Step(c, s, e);
      && t.bargeIn == (e.CloudSpeechEnds? || (Loud(c, s, e) && s.bargeRun + 1 >= c.bargeSustainFrames)
                       || (s.bargeIn && !Silence(s, e) && !e.PeerEnter?))
      && t.bargeRun ==
         if e.UpAudio? && c.localBargeIn then
           if Loud(c, s, e) && s.bargeRun + 1 < c.bargeSustainFrames then s.bargeRun + 1 else 0
         else if e.CloudSpeechEnds? || (Heard(s, e) && !s.downSpeaking) then 0
         else s.bargeRun
  {
    hide S.Reset, S.Push, S.BeginReply, S.Take, S.Sent;
    match e
    case UpAudio(now, loud) => assert Step(c, s, e) == OnUpAudio(c, s, now, loud);
    case AudioOut(now, pcm) => assert Step(c, s, e) == OnAudioOut(c, s, now, pcm);
    case CheckSpeakingOver(now, sb, ab) => assert Step(c, s, e) == OnCheckSpeakingOver(c, s, now, sb, ab);
    case Text(sm, am) => assert Step(c, s, e) == OnText(s, sm, am);
    case _ =>
  }

  lemma OthersLeaveMarkers(c: Config, s: State, e: Event)
    requires s.shaper.frameBytes > 0 && Enabled(s, e) && !e.Text? && !e.CheckSpeakingOver?
    ensures var t := Step(c, s, e);
      && t.markerTailDrop == (s.markerTailDrop && !e.PeerEnter?) && t.standby == (s.standby && !e.PeerEnter?)
      && t.standbyPending == (s.standbyPending && !e.PeerEnter?)
  {
    hide S.Reset, S.Push, S.BeginReply, S.Take, S.Sent;
    match e
    case UpAudio(now, loud) => assert Step(c, s, e) == OnUpAudio(c, s, now, loud);
    case AudioOut(now, pcm) => assert Step(c, s, e) == OnAudioOut(c, s, now, pcm);
    case _ =>
  }

  /** ... and of the markers. */
  lemma MarkersAfter(c: Config, s: State, e: Event)
    requires s.shaper.frameBytes > 0 && Enabled(s, e)
    ensures var t := Step(c, s, e);
      var ends := c.hasRouter && Silence(s, e) && !s.bargeIn;
      var asks := (e.Text? && e.standbyMarker && !s.bargeIn) || (ends && e.standbyBuffered);
      var wakes := (e.Text? && e.activeMarker && !s.bargeIn) || (ends && e.activeBuffered);
      && t.markerTailDrop == (asks || wakes || (s.markerTailDrop && !Silence(s, e) && !e.PeerEnter?))
      && t.standbyPending ==
         (if e.PeerEnter? || wakes then false
          else if Silence(s, e) && (c.hasRouter || s.bargeIn) then false else asks || s.standbyPending)
      && t.standby ==
         if e.PeerEnter? || wakes then false
         else (ends && (e.standbyBuffered || s.standbyPending)) || s.standby
  {
    match e
    case CheckSpeakingOver(now, sb, ab) => assert Step(c, s, e) == OnCheckSpeakingOver(c, s, now, sb, ab);
    case Text(sm, am) => assert Step(c, s, e) == OnText(s, sm, am);
    case _ =>
      OthersLeaveMarkers(c, s, e);
      hide Step;
  }

  lemma {:induction false} StepAgrees(c: Config, s: State, past: seq<Event>, e: Event)
    requires s.shaper.frameBytes > 0 && Enabled(s, e) && Agrees(c, s, past)
    ensures Agrees(c, Step(c, s, e), past + [e])
  {
    OneMore(c, past, e);
    OneMoreMarker(c, past, e);
    ReadsRight(c, s, past, e);
    PlaybackAfter(c, s, e);
    InterruptionAfter(c, s, e);
    MarkersAfter(c, s, e);
    hide Step, Speaks, LastAudio, SpellStart, LoudRun, Interrupted, Trailing, StandbyRequested, InStandby;
    hide SpellEnds, Audible, SpeaksUp, Interrupts, UtteranceEnds, AsksStandby, AsksActive;
  }

  /** In every reachable state the flags of the session are what the events before it say. */
  lemma {:induction false} FlagsAreHistory(c: Config, clock: real, events: seq<Event>)
    requires ValidConfig(c) && LegalRun(c, Init(c, clock), events)
    ensures Agrees(c, Run(c, Init(c, clock), events), events)
    decreases |events|
  {
    if events != [] {
      Unroll(c, Init(c, clock), events);
      var past, e := Before(events), Last(events);
      var s := Run(c, Init(c, clock), past);
      FlagsAreHistory(c, clock, past);
      hide Step, Agrees, Run, LegalRun, Init, Enabled;
      assert events == past + [e];
      StepAgrees(c, s, past, e);
    }
  }

  // ---------- what the markers do ----------

  /** [ACTIVE] outside an interruption ends standby and takes back a request for it. */
  lemma ActiveEndsStandby(c: Config, clock: real, events: seq<Event>, standbyMarker: bool)
    requires ValidConfig(c) && LegalRun(c, Init(c, clock), events) && !Interrupted(c, events)
    ensures var s := Run(c, Init(c, clock), events);
      && s.shaper.frameBytes > 0
      && !Step(c, s, Text(standbyMarker, true)).standby && !Step(c, s, Text(standbyMarker, true)).standbyPending
  {
    FlagsAreHistory(c, clock, events);
    RunKeepsFrameBytes(c, Init(c, clock), events);
    MarkersAfter(c, Run(c, Init(c, clock), events), Text(standbyMarker, true));
  }

  lemma {:induction false} RunKeepsFrameBytes(c: Config, s: State, events: seq<Event>)
    requires s.shaper.frameBytes > 0 && LegalRun(c, s, events)
    ensures Run(c, s, events).shaper.frameBytes > 0
    decreases |events|
  {
    hide Step;
    if events != [] { RunKeepsFrameBytes(c, Step(c, s, events[0]), events[1..]); }
  }

  /** Events that neither play nor interrupt nor wake. */
  predicate Quiet(e: Event) {
    match e
    case UpAudio(_, loud) => !loud
    case CheckSpeakingOver(_, _, activeBuffered) => !activeBuffered
    case Text(_, activeMarker) => !activeMarker
    case AudioOut(_, _) => false
    case CloudSpeechEnds => false
    case PeerEnter(_) => false
    case _ => true
  }

  /** A request waits for its utterance to end, or has been granted. */
  ghost predicate OnItsWay(c: Config, events: seq<Event>, lastAudio: real) {
    || InStandby(c, events)
    || (StandbyRequested(c, events) && Speaks(c, events) && !Interrupted(c, events)
        && LastAudio(c, events) == lastAudio)
  }

  lemma {:induction false} QuietKeepsItsWay(c: Config, past: seq<Event>, e: Event, lastAudio: real)
    requires c.hasRouter && Quiet(e) && OnItsWay(c, past, lastAudio)
    ensures OnItsWay(c, past + [e], lastAudio)
    ensures e.CheckSpeakingOver? && e.now - lastAudio > 0.6 ==> InStandby(c, past + [e])
  {
    OneMore(c, past, e);
    OneMoreMarker(c, past, e);
    hide Speaks, LastAudio, SpellStart, LoudRun, Interrupted, Trailing, StandbyRequested, InStandby;
  }

  lemma {:induction false} QuietRunKeepsItsWay(c: Config, past: seq<Event>, quiet: seq<Event>, lastAudio: real)
    requires c.hasRouter && (forall i :: 0 <= i < |quiet| ==> Quiet(quiet[i])) && OnItsWay(c, past, lastAudio)
    ensures OnItsWay(c, past + quiet, lastAudio)
    decreases |quiet|
  {
    hide OnItsWay, Quiet;
    if quiet == [] {
      assert past + quiet == past;
    } else {
      QuietRunKeepsItsWay(c, past, Before(quiet), lastAudio);
      QuietKeepsItsWay(c, past + Before(quiet), Last(quiet), lastAudio);
      assert past + Before(quiet) + [Last(quiet)] == past + quiet;
    }
  }

  lemma {:induction false} AskingIsOnItsWay(c: Config, past: seq<Event>)
    requires Speaks(c, past) && !Interrupted(c, past)
    ensures OnItsWay(c, past + [Text(true, false)], LastAudio(c, past))
  {
    OneMore(c, past, Text(true, false));
    OneMoreMarker(c, past, Text(true, false));
    hide Speaks, LastAudio, SpellStart, LoudRun, Interrupted, Trailing, StandbyRequested, InStandby;
  }

  /** [STANDBY] while playback speaks, and then silence: once 0.6 s are over and nothing played, interrupted or
      woke the session in between, it is in standby, and the next chunk is not cut and starts no reply. */
  lemma {:induction false} StandbyMutes(c: Config, clock: real, past: seq<Event>, quiet: seq<Event>, now: real,
      standbyBuffered: bool, at: real, pcm: Bytes)
    requires ValidConfig(c) && c.hasRouter && Speaks(c, past) && !Interrupted(c, past)
    requires (forall i :: 0 <= i < |quiet| ==> Quiet(quiet[i])) && now - LastAudio(c, past) > 0.6
    requires LegalRun(c, Init(c, clock),
                      past + [Text(true, false)] + quiet + [CheckSpeakingOver(now, standbyBuffered, false)])
    ensures var all := past + [Text(true, false)] + quiet + [CheckSpeakingOver(now, standbyBuffered, false)];
      var s := Run(c, Init(c, clock), all);
      && s.standby && s.shaper.frameBytes > 0
      && (Enabled(s, AudioOut(at, pcm)) ==>
            && CutNow(c, s, AudioOut(at, pcm)) == []
            && Step(c, s, AudioOut(at, pcm)) == s.(clock := at))
  {
    var asked := past + [Text(true, false)];
    var check := CheckSpeakingOver(now, standbyBuffered, false);
    AskingIsOnItsWay(c, past);
    QuietRunKeepsItsWay(c, asked, quiet, LastAudio(c, past));
    QuietKeepsItsWay(c, asked + quiet, check, LastAudio(c, past));
    FlagsAreHistory(c, clock, asked + quiet + [check]);
    RunKeepsFrameBytes(c, Init(c, clock), asked + quiet + [check]);
    var s := Run(c, Init(c, clock), asked + quiet + [check]);
    assert s.standby;
    hide Run, LegalRun, Init, InStandby;
    if Enabled(s, AudioOut(at, pcm)) { assert Step(c, s, AudioOut(at, pcm)) == OnAudioOut(c, s, at, pcm); }
  }
}
