/** The downlink half of a voice session (backend/rtc_bridge/session.py): speaking spells, barge-in
    windows, marker and standby discarding, and reply identities, on top of the shaper. Handlers are
    cut at their awaits; one clock stands for `time.time()` and `time.monotonic()`. */
module Session {
  import opened Outcomes
  import opened FrameBuffer
  import opened AudioQueue
  import S = Shaper

  datatype Config = Config(
    frameBytes: nat, frameS: real, newReplyGapS: real, bargeGraceS: real, bargeSustainFrames: nat,
    localBargeIn: bool, hasRouter: bool, queue: Queue)

  predicate ValidConfig(c: Config) {
    && c.frameBytes > 0 && c.frameS > 0.0 && c.bargeSustainFrames > 0 && c.queue.maxFrames > 0
    && c.queue == New(c.queue.maxFrames, c.queue.maxBytes, c.queue.maxAgeMs)
  }

  /** What the bridge has handed to the socket. The send lock is first-in first-out, so this is also
      the order on the wire. */
  datatype Message = DownAudio(frame: Entry) | FlushDownlink

  datatype State = State(
    clock: real,
    bargeIn: bool, bargeRun: nat, downSpeaking: bool, downSpeakingSince: real, lastDownTs: real,
    standby: bool, standbyPending: bool, markerTailDrop: bool,
    replySeq: nat, chunkSeq: int, lastDownMono: real,
    cloudPending: nat, shaper: S.Shaper, sent: seq<Message>)

  function Init(c: Config, clock: real): State {
    var shaper := S.Start(c.frameBytes, c.frameS, c.queue);
    State(clock, false, 0, false, 0.0, 0.0, false, false, false, 0, 0, 0.0, 0, shaper, [])
  }

  datatype Event =
    | UpAudio(now: real, loud: bool)
    | AudioOut(now: real, pcm: Bytes)
    | CheckSpeakingOver(now: real, standbyBuffered: bool, activeBuffered: bool)
    | Text(standbyMarker: bool, activeMarker: bool)
    | CloudSpeechBegins(now: real)
    | CloudSpeechEnds
    | PeerEnter(now: real)
    | Take(now: real)
    | Send(now: real)

  /** The clock does not go back, and a coroutine resumes only where it was suspended. */
  predicate Enabled(s: State, e: Event) {
    match e
    case UpAudio(now, _) => now >= s.clock
    case AudioOut(now, _) => now >= s.clock
    case CheckSpeakingOver(now, _, _) => now >= s.clock
    case Text(_, _) => true
    case CloudSpeechBegins(now) => now >= s.clock
    case CloudSpeechEnds => s.cloudPending > 0
    case PeerEnter(now) => now >= s.clock
    case Take(now) => now >= s.clock && s.shaper.held == None
    case Send(now) => now >= s.clock && s.shaper.held.Some? && s.shaper.held.value.wake <= now
  }

  // ---------- uplink: the local barge-in trigger ----------

  /** on_up_audio, up to its first await. */
  function OnUpAudio(c: Config, s: State, now: real, loud: bool): (next: State)
    ensures next.shaper.frameBytes == s.shaper.frameBytes && next.clock == now
  {
    if !c.localBargeIn then s.(clock := now)
    else if s.downSpeaking && !s.bargeIn && loud && now - s.downSpeakingSince >= c.bargeGraceS then
      if s.bargeRun + 1 >= c.bargeSustainFrames then OpenWindow(s, now)
      else s.(clock := now, bargeRun := s.bargeRun + 1)
    else s.(clock := now, bargeRun := 0)
  }

  /** The window opens, the queue is emptied, and the flush order goes to the sidecar. */
  function OpenWindow(s: State, now: real): State {
    s.(clock := now, bargeIn := true, bargeRun := 0, shaper := S.Reset(s.shaper), sent := s.sent + [FlushDownlink])
  }

  // ---------- downlink ----------

  /** The speaking spell that audio starts or continues. */
  function Speaking(s: State, now: real): State {
    if s.downSpeaking then s.(clock := now, lastDownTs := now)
    else s.(clock := now, lastDownTs := now, downSpeaking := true, downSpeakingSince := now, bargeRun := 0)
  }

  predicate StartsReply(c: Config, s: State, now: real) {
    s.replySeq == 0 || now - s.lastDownMono > c.newReplyGapS
  }

  /** _mint_reply_if_needed. */
  function Mint(c: Config, s: State, now: real): State {
    if StartsReply(c, s, now)
    then s.(replySeq := s.replySeq + 1, chunkSeq := 0,
            shaper := S.BeginReply(s.shaper, s.replySeq + 1), lastDownMono := now)
    else s.(lastDownMono := now)
  }

  /** Is this chunk played, or discarded by one of the three windows? */
  predicate Plays(s: State) {
    !s.standby && !s.markerTailDrop && !s.bargeIn
  }

  /** _on_audio_out. */
  function OnAudioOut(c: Config, s: State, now: real, pcm: Bytes): (next: State)
    requires s.shaper.frameBytes > 0
    ensures next.shaper.frameBytes == s.shaper.frameBytes && next.clock == now
  {
    if s.standby then s.(clock := now)
    else if s.markerTailDrop then Speaking(s, now)
    else if s.bargeIn then s.(clock := now)
    else
      var m := Mint(c, Speaking(s, now), now);
      m.(shaper := S.Push(m.shaper, now, pcm, m.chunkSeq), chunkSeq := m.chunkSeq + 1)
  }

  /** _check_down_speaking_over, with the markers found in the router's buffer. */
  function OnCheckSpeakingOver(c: Config, s: State, now: real, standbyBuffered: bool,
        activeBuffered: bool): (next: State)
    ensures next.shaper.frameBytes == s.shaper.frameBytes && next.clock == now
  {
    if !(s.downSpeaking && now - s.lastDownTs > 0.6) then s.(clock := now)
    else
      var over := s.(clock := now, downSpeaking := false, markerTailDrop := false);
      if s.bargeIn then over.(bargeIn := false, standbyPending := false)
      else if !c.hasRouter then over
      else
        var pending := if activeBuffered then false else over.standbyPending || standbyBuffered;
        over.(markerTailDrop := standbyBuffered || activeBuffered,
              standby := pending || (over.standby && !activeBuffered), standbyPending := false)
  }

  /** _on_text, with the markers found in the delta. */
  function OnText(s: State, standbyMarker: bool, activeMarker: bool): State {
    if s.bargeIn then s
    else s.(markerTailDrop := s.markerTailDrop || standbyMarker || activeMarker,
            standby := s.standby && !activeMarker,
            standbyPending := (s.standbyPending || standbyMarker) && !activeMarker)
  }

  /** _on_server_user_speech, up to its first await ... */
  function OnCloudSpeechBegins(s: State, now: real): State {
    if !s.downSpeaking then s.(clock := now)
    else s.(clock := now, shaper := S.Reset(s.shaper), sent := s.sent + [FlushDownlink],
            cloudPending := s.cloudPending + 1)
  }

  /** ... and after its last one. */
  function OnCloudSpeechEnds(s: State): State
    requires s.cloudPending > 0
  {
    s.(bargeIn := true, bargeRun := 0, cloudPending := s.cloudPending - 1)
  }

  /** on_peer_enter. */
  function OnPeerEnter(s: State, now: real): State {
    s.(clock := now, shaper := S.Reset(s.shaper), bargeIn := false, downSpeaking := false, lastDownTs := 0.0,
       standby := false, standbyPending := false, markerTailDrop := false)
  }

  /** `_run` pops an entry ... */
  function OnTake(s: State, now: real): (next: State)
    requires s.shaper.held == None
    ensures next.shaper.frameBytes == s.shaper.frameBytes && next.clock == now
  {
    s.(clock := now, shaper := S.Take(s.shaper, now))
  }

  /** ... and hands it to the socket. */
  function OnSend(s: State, now: real): State
    requires s.shaper.held.Some?
  {
    s.(clock := now, shaper := S.Sent(s.shaper), sent := s.sent + [DownAudio(s.shaper.held.value.entry)])
  }

  function Step(c: Config, s: State, e: Event): (next: State)
    requires s.shaper.frameBytes > 0 && Enabled(s, e)
    ensures next.shaper.frameBytes == s.shaper.frameBytes && next.clock >= s.clock
  {
    match e
    case UpAudio(now, loud) => OnUpAudio(c, s, now, loud)
    case AudioOut(now, pcm) => OnAudioOut(c, s, now, pcm)
    case CheckSpeakingOver(now, sb, ab) => OnCheckSpeakingOver(c, s, now, sb, ab)
    case Text(sm, am) => OnText(s, sm, am)
    case CloudSpeechBegins(now) => OnCloudSpeechBegins(s, now)
    case CloudSpeechEnds => OnCloudSpeechEnds(s)
    case PeerEnter(now) => OnPeerEnter(s, now)
    case Take(now) => OnTake(s, now)
    case Send(now) => OnSend(s, now)
  }

  /** The frames that a step cuts from audio it plays. */
  function CutNow(c: Config, s: State, e: Event): seq<Entry>
    requires s.shaper.frameBytes > 0 && Enabled(s, e)
  {
    if e.AudioOut? && Plays(s) then
      var m := Mint(c, Speaking(s, e.now), e.now);
      S.CutBy(m.shaper, e.now, e.pcm, m.chunkSeq)
    else []
  }

  // ---------- runs ----------

  predicate LegalRun(c: Config, s: State, events: seq<Event>)
    requires s.shaper.frameBytes > 0
    decreases |events|
  {
    events == [] || (Enabled(s, events[0]) && LegalRun(c, Step(c, s, events[0]), events[1..]))
  }

  function Run(c: Config, s: State, events: seq<Event>): State
    requires s.shaper.frameBytes > 0 && LegalRun(c, s, events)
    decreases |events|
  {
    if events == [] then s else Run(c, Step(c, s, events[0]), events[1..])
  }

  /** The states a session can be in. */
  ghost predicate Reachable(c: Config, s: State) {
    && ValidConfig(c)
    && exists clock, events ::
         clock >= 0.0 && LegalRun(c, Init(c, clock), events) && Run(c, Init(c, clock), events) == s
  }
}
