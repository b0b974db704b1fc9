/** The session object (backend/rtc_bridge/session.py): flags, timestamps and counters changed step by
    step, proved to follow the session's step function. `sent` is the socket behind the send lock. */
module PeerVoiceSession {
  import opened FrameBuffer
  import opened AudioQueue
  import S = Shaper
  import D = DownlinkShaper
  import M = Session

  class PeerVoiceSession {
    const newReplyGapS: real
    const bargeGraceS: real
    const bargeSustainFrames: nat
    const localBargeIn: bool
    const hasRouter: bool
    const shaper: D.DownlinkShaper
    var clock: real
    var bargeIn: bool
    var bargeRun: nat
    var downSpeaking: bool
    var downSpeakingSince: real
    var lastDownTs: real
    var standby: bool
    var standbyPending: bool
    var markerTailDrop: bool
    var replySeq: nat
    var chunkSeq: int
    var lastDownMono: real
    var cloudPending: nat
    var sent: seq<M.Message>

    ghost predicate Valid()
      reads this, shaper, shaper.buffer
    {
      shaper.Valid()
    }

    ghost function Config(): M.Config {
      M.Config(shaper.buffer.frameBytes, shaper.frameS, newReplyGapS, bargeGraceS, bargeSustainFrames,
               localBargeIn, hasRouter, New(shaper.q.maxFrames, shaper.q.maxBytes, shaper.q.maxFrameAgeMs))
    }

    ghost function Model(): M.State
      reads this, shaper, shaper.buffer, shaper.q
    {
      M.State(clock, bargeIn, bargeRun, downSpeaking, downSpeakingSince, lastDownTs,
              standby, standbyPending, markerTailDrop, replySeq, chunkSeq, lastDownMono,
              cloudPending, shaper.Model(), sent)
    }

    lemma ModelIs(m: M.State)
      requires m.clock == clock && m.bargeIn == bargeIn && m.bargeRun == bargeRun && m.downSpeaking == downSpeaking
      requires m.downSpeakingSince == downSpeakingSince && m.lastDownTs == lastDownTs && m.standby == standby
      requires m.standbyPending == standbyPending && m.markerTailDrop == markerTailDrop && m.replySeq == replySeq
      requires m.chunkSeq == chunkSeq && m.lastDownMono == lastDownMono && m.cloudPending == cloudPending
      requires m.shaper == shaper.Model() && m.sent == sent
      ensures Model() == m
    {
    }

    constructor (frameBytes: nat, frameS: real, maxFrames: nat, maxBytes: nat, maxFrameAgeMs: nat,
                 newReplyGapS: real, bargeGraceS: real, bargeSustainFrames: nat,
                 localBargeIn: bool, hasRouter: bool, clock: real)
      requires frameBytes > 0 && frameS > 0.0 && maxFrames > 0 && maxBytes > 0 && maxFrameAgeMs > 0
      ensures Valid() && M.ValidConfig(Config()) && Model() == M.Init(Config(), clock)
      ensures this.newReplyGapS == newReplyGapS && this.bargeGraceS == bargeGraceS
      ensures this.bargeSustainFrames == if bargeSustainFrames > 1 then bargeSustainFrames else 1
      ensures this.localBargeIn == localBargeIn && this.hasRouter == hasRouter
    {
      this.newReplyGapS, this.bargeGraceS := newReplyGapS, bargeGraceS;
      this.bargeSustainFrames := if bargeSustainFrames > 1 then bargeSustainFrames else 1;
      this.localBargeIn, this.hasRouter := localBargeIn, hasRouter;
      shaper := new D.DownlinkShaper(frameBytes, frameS, maxFrames, maxBytes, maxFrameAgeMs);
      this.clock := clock;
      bargeIn, bargeRun, downSpeaking, downSpeakingSince, lastDownTs := false, 0, false, 0.0, 0.0;
      standby, standbyPending, markerTailDrop := false, false, false;
      replySeq, chunkSeq, lastDownMono, cloudPending, sent := 0, 0, 0.0, 0, [];
    }

    method OnUpAudio(now: real, loud: bool)
      requires Valid() && M.Enabled(Model(), M.UpAudio(now, loud))
      modifies this, shaper, shaper.buffer, shaper.q
      ensures Valid() && Model() == M.OnUpAudio(Config(), old(Model()), now, loud)
    {
      hide D.DownlinkShaper.Model, D.DownlinkShaper.Valid;
      clock := now;
      if localBargeIn {
        if downSpeaking && !bargeIn && loud {
          if now - downSpeakingSince >= bargeGraceS {
            bargeRun := bargeRun + 1;
            if bargeRun >= bargeSustainFrames { InterruptPlayback(); }
          } else {
            bargeRun := 0;
          }
        } else {
          bargeRun := 0;
        }
      }
      ModelIs(M.OnUpAudio(Config(), old(Model()), now, loud));
    }

    /** The window opens, the queue is emptied, the flush order goes out. */
    method InterruptPlayback()
      requires Valid()
      modifies this`bargeIn, this`bargeRun, this`sent, shaper, shaper.buffer, shaper.q
      ensures Valid() && bargeIn && bargeRun == 0 && sent == old(sent) + [M.FlushDownlink]
      ensures shaper.Model() == S.Reset(old(shaper.Model()))
    {
      hide D.DownlinkShaper.Model, D.DownlinkShaper.Valid;
      bargeIn := true;
      bargeRun := 0;
      shaper.Reset();
      sent := sent + [M.FlushDownlink];
    }

    method OnAudioOut(now: real, pcm: Bytes)
      requires Valid() && M.Enabled(Model(), M.AudioOut(now, pcm))
      modifies this, shaper, shaper.buffer, shaper.q
      ensures Valid() && Model() == M.OnAudioOut(Config(), old(Model()), now, pcm)
    {
      hide D.DownlinkShaper.Model, D.DownlinkShaper.Valid;
      if standby {
        clock := now;
        return;
      }
      if markerTailDrop {
        NoteSpeaking(now);
        return;
      }
      if bargeIn {
        clock := now;
        return;
      }
      NoteSpeaking(now);
      MintReplyIfNeeded(now);
      Forward(now, pcm);
    }

    /** The model is speaking: a first chunk starts a spell, a later one keeps it alive. */
    method NoteSpeaking(now: real)
      requires Valid()
      modifies this
      ensures Valid() && Model() == M.Speaking(old(Model()), now)
    {
      hide D.DownlinkShaper.Model, D.DownlinkShaper.Valid;
      clock := now;
      lastDownTs := now;
      if !downSpeaking {
        downSpeakingSince := now;
        bargeRun := 0;
      }
      downSpeaking := true;
    }

    method Forward(now: real, pcm: Bytes)
      requires Valid()
      modifies this, shaper, shaper.buffer, shaper.q
      ensures Valid()
      ensures Model() == old(Model()).(shaper := S.Push(old(shaper.Model()), now, pcm, old(chunkSeq)),
                                       chunkSeq := old(chunkSeq) + 1)
    {
      hide D.DownlinkShaper.Model, D.DownlinkShaper.Valid;
      shaper.Push(now, pcm, chunkSeq);
      chunkSeq := chunkSeq + 1;
    }

    method MintReplyIfNeeded(now: real)
      requires Valid()
      modifies this, shaper
      ensures Valid() && Model() == M.Mint(Config(), old(Model()), now)
    {
      hide D.DownlinkShaper.Model, D.DownlinkShaper.Valid;
      if replySeq == 0 || now - lastDownMono > newReplyGapS {
        replySeq := replySeq + 1;
        chunkSeq := 0;
        shaper.BeginReply(replySeq);
      }
      lastDownMono := now;
    }

    method CheckDownSpeakingOver(now: real, standbyBuffered: bool, activeBuffered: bool)
      requires Valid() && M.Enabled(Model(), M.CheckSpeakingOver(now, standbyBuffered, activeBuffered))
      modifies this
      ensures Valid() && Model() == M.OnCheckSpeakingOver(Config(), old(Model()), now, standbyBuffered, activeBuffered)
    {
      hide D.DownlinkShaper.Model, D.DownlinkShaper.Valid;
      clock := now;
      if downSpeaking && now - lastDownTs > 0.6 { EndSpell(standbyBuffered, activeBuffered); }
      ModelIs(M.OnCheckSpeakingOver(Config(), old(Model()), now, standbyBuffered, activeBuffered));
    }

    /** A spell of playback is over: an open window closes, otherwise the utterance ends. */
    method EndSpell(standbyBuffered: bool, activeBuffered: bool)
      modifies this`downSpeaking, this`markerTailDrop, this`bargeIn, this`standby, this`standbyPending
      ensures !downSpeaking && !bargeIn
      ensures old(bargeIn) ==> !markerTailDrop && !standbyPending && standby == old(standby)
      ensures !old(bargeIn) && !hasRouter ==>
        !markerTailDrop && standbyPending == old(standbyPending) && standby == old(standby)
      ensures !old(bargeIn) && hasRouter ==>
        && markerTailDrop == (standbyBuffered || activeBuffered) && !standbyPending
        && standby == (!activeBuffered && (old(standby) || old(standbyPending) || standbyBuffered))
    {
      downSpeaking := false;
      markerTailDrop := false;
      if bargeIn {
        bargeIn := false;
        standbyPending := false;
      } else if hasRouter {
        EndUtterance(standbyBuffered, activeBuffered);
      }
    }

    /** The model has finished speaking: buffered markers apply, and a pending standby begins. */
    method EndUtterance(standbyBuffered: bool, activeBuffered: bool)
      modifies this`markerTailDrop, this`standby, this`standbyPending
      ensures markerTailDrop == (old(markerTailDrop) || standbyBuffered || activeBuffered)
      ensures standby == (!activeBuffered && (old(standby) || old(standbyPending) || standbyBuffered))
      ensures !standbyPending
    {
      if standbyBuffered || activeBuffered { ApplyMarkers(standbyBuffered, activeBuffered); }
      if standbyPending {
        standby := true;
        standbyPending := false;
      }
    }

    /** Markers open the tail window, request standby or end it. */
    method ApplyMarkers(standbyMarker: bool, activeMarker: bool)
      modifies this`markerTailDrop, this`standby, this`standbyPending
      ensures markerTailDrop == (old(markerTailDrop) || standbyMarker || activeMarker)
      ensures standby == (old(standby) && !activeMarker)
      ensures standbyPending == ((old(standbyPending) || standbyMarker) && !activeMarker)
    {
      if standbyMarker || activeMarker { markerTailDrop := true; }
      if standbyMarker { standbyPending := true; }
      if activeMarker {
        standby := false;
        standbyPending := false;
      }
    }

    method OnText(standbyMarker: bool, activeMarker: bool)
      requires Valid()
      modifies this
      ensures Valid() && Model() == M.OnText(old(Model()), standbyMarker, activeMarker)
    {
      hide D.DownlinkShaper.Model, D.DownlinkShaper.Valid;
      if bargeIn { return; }
      ApplyMarkers(standbyMarker, activeMarker);
    }

    /** _on_server_user_speech up to its first await; the result says whether it goes on. */
    method OnServerUserSpeechBegins(now: real) returns (goesOn: bool)
      requires Valid() && M.Enabled(Model(), M.CloudSpeechBegins(now))
      modifies this, shaper, shaper.buffer, shaper.q
      ensures Valid() && Model() == M.OnCloudSpeechBegins(old(Model()), now)
      ensures goesOn == old(downSpeaking)
    {
      hide D.DownlinkShaper.Model, D.DownlinkShaper.Valid;
      clock := now;
      goesOn := downSpeaking;
      if downSpeaking {
        shaper.Reset();
        sent := sent + [M.FlushDownlink];
        cloudPending := cloudPending + 1;
      }
    }

    method OnServerUserSpeechEnds()
      requires Valid() && M.Enabled(Model(), M.CloudSpeechEnds)
      modifies this
      ensures Valid() && Model() == M.OnCloudSpeechEnds(old(Model()))
    {
      hide D.DownlinkShaper.Model, D.DownlinkShaper.Valid;
      bargeIn := true;
      bargeRun := 0;
      cloudPending := cloudPending - 1;
    }

    method OnPeerEnter(now: real)
      requires Valid() && M.Enabled(Model(), M.PeerEnter(now))
      modifies this, shaper, shaper.buffer, shaper.q
      ensures Valid() && Model() == M.OnPeerEnter(old(Model()), now)
    {
      hide D.DownlinkShaper.Model, D.DownlinkShaper.Valid;
      shaper.Reset();
      ForgetWindows(now);
    }

    method ForgetWindows(now: real)
      requires Valid()
      modifies this
      ensures Valid()
      ensures Model() == old(Model()).(clock := now, bargeIn := false, downSpeaking := false, lastDownTs := 0.0,
                                       standby := false, standbyPending := false, markerTailDrop := false)
    {
      hide D.DownlinkShaper.Model, D.DownlinkShaper.Valid;
      clock := now;
      bargeIn := false;
      downSpeaking := false;
      lastDownTs := 0.0;
      ForgetMarkers();
      ModelIs(old(Model()).(clock := now, bargeIn := false, downSpeaking := false, lastDownTs := 0.0,
                            standby := false, standbyPending := false, markerTailDrop := false));
    }

    method ForgetMarkers()
      modifies this`standby, this`standbyPending, this`markerTailDrop
      ensures !standby && !standbyPending && !markerTailDrop
    {
      standby := false;
      standbyPending := false;
      markerTailDrop := false;
    }

    method RunTakes(now: real)
      requires Valid() && M.Enabled(Model(), M.Take(now))
      modifies this, shaper, shaper.q
      ensures Valid() && Model() == M.OnTake(old(Model()), now)
    {
      clock := now;
      shaper.TakeNext(now);
    }

    method SendFrame(now: real)
      requires Valid() && M.Enabled(Model(), M.Send(now))
      modifies this, shaper
      ensures Valid() && Model() == M.OnSend(old(Model()), now)
    {
      clock := now;
      var frame := shaper.SendHeld(now);
      sent := sent + [M.DownAudio(frame)];
    }
  }
}
