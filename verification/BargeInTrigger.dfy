/** When the local-energy path may interrupt (backend/rtc_bridge/session.py): only on sustained loud
    speech, past the grace period, within one spell of playback. */
module BargeInTrigger {
  import opened FrameBuffer
  import S = Shaper
  import opened Session
  import opened CutThrough

  /** One uplink frame as it arrived: what it was, and in which speaking spell. */
  datatype Uplink = Uplink(time: real, loud: bool, speaking: bool, windowOpen: bool, spell: nat, spellStart: real)

  /** History of a run: its uplink frames and the number of speaking spells so far. No code reads it. */
  datatype Log = Log(uplinks: seq<Uplink>, spells: nat)

  function Record(c: Config, s: State, e: Event, log: Log): Log
    requires s.shaper.frameBytes > 0 && Enabled(s, e)
  {
    var uplinks :=
      if e.UpAudio?
      then log.uplinks + [Uplink(e.now, e.loud, s.downSpeaking, s.bargeIn, log.spells, s.downSpeakingSince)]
      else log.uplinks;
    Log(uplinks, log.spells + if !s.downSpeaking && Step(c, s, e).downSpeaking then 1 else 0)
  }

  /** A frame that counts towards an interruption. */
  predicate Counts(c: Config, u: Uplink, spell: nat) {
    u.loud && u.speaking && !u.windowOpen && u.spell == spell && u.time - u.spellStart >= c.bargeGraceS
  }

  /** How many of the latest frames count, without a gap. */
  function Sustained(c: Config, uplinks: seq<Uplink>, spell: nat): nat {
    if uplinks == [] || !Counts(c, uplinks[|uplinks| - 1], spell) then 0
    else 1 + Sustained(c, uplinks[..|uplinks| - 1], spell)
  }

  lemma SustainedAppend(c: Config, uplinks: seq<Uplink>, u: Uplink, spell: nat)
    ensures Sustained(c, uplinks + [u], spell) == if Counts(c, u, spell) then 1 + Sustained(c, uplinks, spell) else 0
  {
    assert (uplinks + [u])[..|uplinks|] == uplinks;
  }

  ghost predicate Counted(c: Config, s: State, log: Log) {
    && (c.localBargeIn && s.downSpeaking && !s.bargeIn ==> s.bargeRun == Sustained(c, log.uplinks, log.spells))
    && s.bargeRun < c.bargeSustainFrames
    && (!c.localBargeIn ==> s.bargeRun == 0)
    && (forall i :: 0 <= i < |log.uplinks| ==> log.uplinks[i].spell <= log.spells)
  }

  lemma {:induction false} UpCounted(c: Config, s: State, e: Event, log: Log)
    requires c.bargeSustainFrames > 0 && s.shaper.frameBytes > 0 && Enabled(s, e) && Counted(c, s, log) && e.UpAudio?
    ensures Counted(c, Step(c, s, e), Record(c, s, e, log))
  {
    var u := Uplink(e.now, e.loud, s.downSpeaking, s.bargeIn, log.spells, s.downSpeakingSince);
    SustainedAppend(c, log.uplinks, u, log.spells);
    hide Sustained;
    assert Step(c, s, e) == OnUpAudio(c, s, e.now, e.loud);
  }

  lemma {:induction false} AudioCounted(c: Config, s: State, e: Event, log: Log)
    requires s.shaper.frameBytes > 0 && Enabled(s, e) && Counted(c, s, log) && e.AudioOut?
    ensures Counted(c, Step(c, s, e), Record(c, s, e, log))
  {
    NewSpellCountsNothing(c, log.uplinks, log.spells + 1);
    WhatAudioStarts(c, s, e.now, e.pcm);
    assert Step(c, s, e) == OnAudioOut(c, s, e.now, e.pcm);
    hide Step, OnAudioOut, Sustained, Counts;
  }

  /** The other steps end spells or open windows, if they change anything that counts. */
  lemma {:induction false} OthersCounted(c: Config, s: State, e: Event, log: Log)
    requires s.shaper.frameBytes > 0 && c.bargeSustainFrames > 0 && Enabled(s, e) && Counted(c, s, log)
    requires !e.UpAudio? && !e.AudioOut?
    ensures Counted(c, Step(c, s, e), Record(c, s, e, log))
  {
    OthersKeepCounts(c, s, e);
    hide Step, Sustained, Counts;
  }

  lemma OthersKeepCounts(c: Config, s: State, e: Event)
    requires s.shaper.frameBytes > 0 && Enabled(s, e) && !e.UpAudio? && !e.AudioOut?
    ensures var t := Step(c, s, e);
      && (t.bargeRun == s.bargeRun || (t.bargeRun == 0 && t.bargeIn))
      && (t.downSpeaking ==> s.downSpeaking) && (t.downSpeaking && !t.bargeIn ==> !s.bargeIn)
  {
    hide S.Reset, S.Take, S.Sent;
  }

  lemma {:induction false} StepCounted(c: Config, s: State, e: Event, log: Log)
    requires c.bargeSustainFrames > 0 && s.shaper.frameBytes > 0 && Enabled(s, e) && Counted(c, s, log)
    ensures Counted(c, Step(c, s, e), Record(c, s, e, log))
  {
    hide Step, Counted, Record;
    if e.UpAudio? { UpCounted(c, s, e, log); }
    else if e.AudioOut? { AudioCounted(c, s, e, log); }
    else { OthersCounted(c, s, e, log); }
  }

  /** No frame belongs to a spell that is only starting. */
  lemma NewSpellCountsNothing(c: Config, uplinks: seq<Uplink>, spell: nat)
    requires forall i :: 0 <= i < |uplinks| ==> uplinks[i].spell < spell
    ensures Sustained(c, uplinks, spell) == 0
  {
  }

  lemma WhatAudioStarts(c: Config, s: State, now: real, pcm: Bytes)
    requires s.shaper.frameBytes > 0
    ensures var t := OnAudioOut(c, s, now, pcm);
      && t.bargeIn == s.bargeIn && (s.downSpeaking ==> t.downSpeaking && t.bargeRun == s.bargeRun)
      && (!s.downSpeaking && t.downSpeaking ==> t.bargeRun == 0)
      && (!t.downSpeaking ==> t.bargeRun == s.bargeRun)
  {
  }

  function RunLog(c: Config, s: State, events: seq<Event>, log: Log): Log
    requires s.shaper.frameBytes > 0 && LegalRun(c, s, events)
    decreases |events|
  {
    if events == [] then log else RunLog(c, Step(c, s, events[0]), events[1..], Record(c, s, events[0], log))
  }

  lemma {:induction false} RunCounted(c: Config, s: State, events: seq<Event>, log: Log)
    requires c.bargeSustainFrames > 0 && s.shaper.frameBytes > 0 && Counted(c, s, log) && LegalRun(c, s, events)
    ensures Counted(c, Run(c, s, events), RunLog(c, s, events, log))
    decreases |events|
  {
    hide Step, Counted, Record;
    if events != [] {
      StepCounted(c, s, events[0], log);
      RunCounted(c, Step(c, s, events[0]), events[1..], Record(c, s, events[0], log));
    }
  }

  lemma {:induction false} SustainedFramesCount(c: Config, uplinks: seq<Uplink>, spell: nat, i: nat)
    requires Sustained(c, uplinks, spell) <= |uplinks|
    requires |uplinks| - Sustained(c, uplinks, spell) <= i < |uplinks|
    ensures Counts(c, uplinks[i], spell)
  {
    if i < |uplinks| - 1 {
      SustainedFramesCount(c, uplinks[..|uplinks| - 1], spell, i);
    }
  }

  lemma {:induction false} SustainedIsWithin(c: Config, uplinks: seq<Uplink>, spell: nat)
    ensures Sustained(c, uplinks, spell) <= |uplinks|
  {
    if uplinks != [] && Counts(c, uplinks[|uplinks| - 1], spell) {
      SustainedIsWithin(c, uplinks[..|uplinks| - 1], spell);
    }
  }

  /** Soundness and exactness of the trigger: after any run, an uplink frame opens the window if and
      only if playback is on, no window is open, and it completes a run of `barge_sustain_frames`
      consecutive loud frames, all past the grace period of the same speaking spell. The counter
      `_barge_run` is that run's length and stays below the threshold. */
  lemma TriggerIsExact(c: Config, clock: real, events: seq<Event>, now: real, loud: bool)
    requires ValidConfig(c) && LegalRun(c, Init(c, clock), events)
    requires now >= Run(c, Init(c, clock), events).clock && Run(c, Init(c, clock), events).shaper.frameBytes > 0
    ensures var s := Run(c, Init(c, clock), events);
            var e := UpAudio(now, loud);
            var log := RunLog(c, Init(c, clock), events, Log([], 0));
            var uplinks := Record(c, s, e, log).uplinks;
            && s.bargeRun < c.bargeSustainFrames
            && (c.localBargeIn && s.downSpeaking && !s.bargeIn ==> s.bargeRun == Sustained(c, log.uplinks, log.spells))
            && (OpensWindow(c, s, e) <==>
                  c.localBargeIn && s.downSpeaking && !s.bargeIn
                  && Sustained(c, uplinks, log.spells) == c.bargeSustainFrames)
            && (OpensWindow(c, s, e) ==>
                  var first := |uplinks| - c.bargeSustainFrames;
                  first >= 0 && forall i :: first <= i < |uplinks| ==> Counts(c, uplinks[i], log.spells))
  {
    var s := Run(c, Init(c, clock), events);
    var log := RunLog(c, Init(c, clock), events, Log([], 0));
    RunCounted(c, Init(c, clock), events, Log([], 0));
    var u := Uplink(now, loud, s.downSpeaking, s.bargeIn, log.spells, s.downSpeakingSince);
    var uplinks := log.uplinks + [u];
    SustainedAppend(c, log.uplinks, u, log.spells);
    SustainedIsWithin(c, uplinks, log.spells);
    forall i | |uplinks| - Sustained(c, uplinks, log.spells) <= i < |uplinks|
      ensures Counts(c, uplinks[i], log.spells)
    {
      SustainedFramesCount(c, uplinks, log.spells, i);
    }
  }
}
