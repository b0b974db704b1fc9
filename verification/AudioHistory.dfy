/** The audio of a voice session told by its events alone (backend/rtc_bridge/session.py,
    backend/rtc_bridge/shaper.py): which chunks are played, which replies they make, and every frame that is cut
    from them with all its labels. */
module AudioHistory {
  import opened Outcomes
  import opened FrameBuffer
  import opened AudioQueue
  import Q = AudioQueue
  import S = Shaper
  import opened Session
  import opened SessionHistory
  import SessionOrder

  // ---------- what the events say ----------

  /** A chunk is played outside standby, outside an interruption and before a marker ended the reply. */
  ghost predicate IsPlayed(c: Config, past: seq<Event>, e: Event) {
    e.AudioOut? && !InStandby(c, past) && !Trailing(c, past) && !Interrupted(c, past)
  }

  /** Everything queued is thrown away: an interruption by the local path, the cloud's word while playback
      speaks, a re-entry. */
  ghost predicate ThrowsAway(c: Config, past: seq<Event>, e: Event) {
    (e.UpAudio? && Interrupts(c, past, e)) || (e.CloudSpeechBegins? && Speaks(c, past)) || e.PeerEnter?
  }

  /** The audio played since the last time everything was thrown away. */
  ghost function Accepted(c: Config, events: seq<Event>): Bytes {
    if events == [] then []
    else
      var past, e := Before(events), Last(events);
      if ThrowsAway(c, past, e) then [] else if IsPlayed(c, past, e) then Accepted(c, past) + e.pcm
      else Accepted(c, past)
  }

  /** When chunks were played. */
  ghost function PlayedAt(c: Config, events: seq<Event>): seq<real> {
    if events == [] then []
    else
      var past, e := Before(events), Last(events);
      PlayedAt(c, past) + if IsPlayed(c, past, e) then [e.now] else []
  }

  predicate StartsAfterGap(times: seq<real>, gap: real)
    requires times != []
  {
    |times| == 1 || times[|times| - 1] - times[|times| - 2] > gap
  }

  /** Replies: the first chunk starts one, and every chunk that comes after more than the gap. */
  function ReplyCount(times: seq<real>, gap: real): nat {
    if times == [] then 0
    else ReplyCount(times[..|times| - 1], gap) + if StartsAfterGap(times, gap) then 1 else 0
  }

  /** How many chunks the current reply has. */
  function ChunkCount(times: seq<real>, gap: real): nat {
    if times == [] then 0
    else if StartsAfterGap(times, gap) then 1 else 1 + ChunkCount(times[..|times| - 1], gap)
  }

  function FramesOfReply(es: seq<Entry>, reply: nat): nat {
    if es == [] then 0
    else FramesOfReply(es[..|es| - 1], reply) + if es[|es| - 1].reply == reply then 1 else 0
  }

  /** The frames a played chunk completes: consecutive numbers within its reply, the time it came and its place
      in the reply. */
  ghost function NewFrames(c: Config, past: seq<Event>, e: Event): seq<Entry>
    requires c.frameBytes > 0 && e.AudioOut?
    decreases |past|, 1
  {
    var times := PlayedAt(c, past) + [e.now];
    var reply, chunk := ReplyCount(times, c.newReplyGapS), ChunkCount(times, c.newReplyGapS) - 1;
    var first := FramesOfReply(CutFrames(c, past), reply);
    var frames := Frames(Residue(Accepted(c, past), c.frameBytes) + e.pcm, c.frameBytes);
    seq(|frames|, i requires 0 <= i < |frames| => Entry(frames[i], 0, e.now, reply, first + i, chunk))
  }

  /** Every frame cut so far. */
  ghost function CutFrames(c: Config, events: seq<Event>): seq<Entry>
    requires c.frameBytes > 0
    decreases |events|, 0
  {
    if events == [] then []
    else
      var past, e := Before(events), Last(events);
      CutFrames(c, past) + if IsPlayed(c, past, e) then NewFrames(c, past, e) else []
  }

  // ---------- counting ----------

  lemma OneMoreTime(times: seq<real>, now: real, gap: real)
    ensures var starts := times == [] || now - times[|times| - 1] > gap;
      && ReplyCount(times + [now], gap) == ReplyCount(times, gap) + (if starts then 1 else 0)
      && ChunkCount(times + [now], gap) == if starts then 1 else 1 + ChunkCount(times, gap)
  {
    var all := times + [now];
    assert all[..|all| - 1] == times;
  }

  lemma {:induction false} SomeReply(times: seq<real>, gap: real)
    ensures ReplyCount(times, gap) == 0 <==> times == []
  {
    if |times| > 1 { SomeReply(times[..|times| - 1], gap); }
  }

  lemma {:induction false} FramesOfAppend(a: seq<Entry>, b: seq<Entry>, reply: nat)
    requires forall i :: 0 <= i < |b| ==> b[i].reply == reply
    ensures FramesOfReply(a + b, reply) == FramesOfReply(a, reply) + |b|
    decreases |b|
  {
    if b == [] {
      assert a + b == a;
    } else {
      FramesOfAppend(a, b[..|b| - 1], reply);
      assert (a + b)[..|a + b| - 1] == a + b[..|b| - 1];
    }
  }

  lemma {:induction false} NoFramesYet(es: seq<Entry>, reply: nat)
    requires forall i :: 0 <= i < |es| ==> es[i].reply < reply
    ensures FramesOfReply(es, reply) == 0
  {
    if es != [] { NoFramesYet(es[..|es| - 1], reply); }
  }

  // ---------- the session agrees ----------

  ghost predicate RepliesAgree(c: Config, s: State, times: seq<real>, cut: seq<Entry>) {
    && s.replySeq == ReplyCount(times, c.newReplyGapS) && s.chunkSeq == ChunkCount(times, c.newReplyGapS)
    && (times != [] ==> s.lastDownMono == times[|times| - 1])
    && s.shaper.reply == s.replySeq && s.shaper.frameSeq == FramesOfReply(cut, s.replySeq)
    && (forall i :: 0 <= i < |cut| ==> cut[i].reply <= s.replySeq)
  }

  ghost predicate AudioAgrees(c: Config, s: State, past: seq<Event>)
    requires c.frameBytes > 0
  {
    && s.shaper.frameBytes == c.frameBytes && s.shaper.queue.generation == 0
    && s.shaper.buf == Residue(Accepted(c, past), c.frameBytes)
    && RepliesAgree(c, s, PlayedAt(c, past), CutFrames(c, past))
  }

  lemma {:induction false} OneMoreAudio(c: Config, past: seq<Event>, e: Event)
    requires c.frameBytes > 0
    ensures Accepted(c, past + [e])
      == if ThrowsAway(c, past, e) then [] else if IsPlayed(c, past, e) then Accepted(c, past) + e.pcm
         else Accepted(c, past)
    ensures PlayedAt(c, past + [e]) == PlayedAt(c, past) + if IsPlayed(c, past, e) then [e.now] else []
    ensures CutFrames(c, past + [e]) == CutFrames(c, past) + if IsPlayed(c, past, e) then NewFrames(c, past, e) else []
  {
    var all := past + [e];
    assert Before(all) == past && Last(all) == e;
    hide IsPlayed, ThrowsAway, NewFrames;
  }

  /** The labels that the session gives are those the events ask for. */
  lemma {:induction false} CutsWhatEventsSay(c: Config, s: State, past: seq<Event>, e: Event)
    requires c.frameBytes > 0 && Enabled(s, e) && AudioAgrees(c, s, past) && e.AudioOut? && Plays(s)
    ensures CutNow(c, s, e) == NewFrames(c, past, e)
    ensures RepliesAgree(c, Step(c, s, e), PlayedAt(c, past) + [e.now], CutFrames(c, past) + NewFrames(c, past, e))
  {
    var times, cut := PlayedAt(c, past), CutFrames(c, past);
    OneMoreTime(times, e.now, c.newReplyGapS);
    SomeReply(times, c.newReplyGapS);
    NoFramesYet(cut, s.replySeq + 1);
    var m := Mint(c, Speaking(s, e.now), e.now);
    var added := NewFrames(c, past, e);
    assert m.replySeq == ReplyCount(times + [e.now], c.newReplyGapS);
    assert m.shaper.frameSeq == FramesOfReply(cut, m.replySeq);
    assert CutNow(c, s, e) == S.CutBy(m.shaper, e.now, e.pcm, m.chunkSeq);
    assert CutNow(c, s, e) == added;
    FramesOfAppend(cut, added, m.replySeq);
    assert Step(c, s, e) == OnAudioOut(c, s, e.now, e.pcm);
    hide ReplyCount, ChunkCount, FramesOfReply, CutFrames, PlayedAt, S.PushAll, Frames, Residue;
  }

  lemma PushAllKeepsGeneration(q: Queue, now: real, es: seq<Entry>)
    ensures S.PushAll(q, now, es).generation == q.generation
    decreases |es|
  {
    if es != [] { PushAllKeepsGeneration(Q.Push(q, now, es[0]), now, es[1..]); }
  }

  lemma {:induction false} AudioStepAgrees(c: Config, s: State, past: seq<Event>, e: Event)
    requires c.frameBytes > 0 && Enabled(s, e) && Agrees(c, s, past) && AudioAgrees(c, s, past) && e.AudioOut?
    ensures AudioAgrees(c, Step(c, s, e), past + [e])
  {
    OneMoreAudio(c, past, e);
    assert IsPlayed(c, past, e) == Plays(s);
    assert Step(c, s, e) == OnAudioOut(c, s, e.now, e.pcm);
    if Plays(s) {
      CutsWhatEventsSay(c, s, past, e);
      CutIsIrrelevant(Accepted(c, past), e.pcm, c.frameBytes);
      var m := Mint(c, Speaking(s, e.now), e.now);
      PushAllKeepsGeneration(m.shaper.queue, e.now, CutNow(c, s, e));
    }
    hide RepliesAgree, Accepted, PlayedAt, CutFrames, S.PushAll, Frames, Residue, Agrees, NewFrames;
    if !Plays(s) { SameReplies(c, s, Step(c, s, e), PlayedAt(c, past), CutFrames(c, past)); }
  }

  lemma SameReplies(c: Config, s: State, t: State, times: seq<real>, cut: seq<Entry>)
    requires RepliesAgree(c, s, times, cut) && t.replySeq == s.replySeq && t.chunkSeq == s.chunkSeq
    requires t.lastDownMono == s.lastDownMono
    requires t.shaper.reply == s.shaper.reply && t.shaper.frameSeq == s.shaper.frameSeq
    ensures RepliesAgree(c, t, times + [], cut + [])
  {
    assert times + [] == times && cut + [] == cut;
  }

  /** No other event plays; some throw away. */
  lemma OthersLeaveReplies(c: Config, s: State, e: Event)
    requires s.shaper.frameBytes > 0 && Enabled(s, e) && !e.AudioOut?
    ensures var t := Step(c, s, e);
      && t.replySeq == s.replySeq && t.chunkSeq == s.chunkSeq && t.lastDownMono == s.lastDownMono
      && t.shaper.reply == s.shaper.reply && t.shaper.frameSeq == s.shaper.frameSeq
      && t.shaper.frameBytes == s.shaper.frameBytes && t.shaper.queue.generation == s.shaper.queue.generation
  {
    hide DropExpired;
    match e
    case UpAudio(now, loud) => assert Step(c, s, e) == OnUpAudio(c, s, now, loud);
    case CheckSpeakingOver(now, sb, ab) => assert Step(c, s, e) == OnCheckSpeakingOver(c, s, now, sb, ab);
    case Take(now) =>
      assert Step(c, s, e) == OnTake(s, now);
      PopKeepsGeneration(s.shaper.queue, now);
      hide Q.Pop;
    case _ =>
  }

  lemma PopKeepsGeneration(q: Queue, now: real)
    ensures Q.Pop(q, now).generation == q.generation
  {
  }

  lemma OthersLeaveBuffer(c: Config, s: State, e: Event)
    requires s.shaper.frameBytes > 0 && Enabled(s, e) && !e.AudioOut?
    ensures var throws := (e.UpAudio? && Loud(c, s, e) && s.bargeRun + 1 >= c.bargeSustainFrames)
                          || (e.CloudSpeechBegins? && s.downSpeaking) || e.PeerEnter?;
      Step(c, s, e).shaper.buf == if throws then [] else s.shaper.buf
  {
    hide Q.Pop, DropExpired;
    match e
    case UpAudio(now, loud) => assert Step(c, s, e) == OnUpAudio(c, s, now, loud);
    case CheckSpeakingOver(now, sb, ab) => assert Step(c, s, e) == OnCheckSpeakingOver(c, s, now, sb, ab);
    case Take(now) => assert Step(c, s, e) == OnTake(s, now);
    case _ =>
  }

  lemma {:induction false} OtherStepAgrees(c: Config, s: State, past: seq<Event>, e: Event)
    requires c.frameBytes > 0 && Enabled(s, e) && Agrees(c, s, past) && AudioAgrees(c, s, past) && !e.AudioOut?
    ensures AudioAgrees(c, Step(c, s, e), past + [e])
  {
    OneMoreAudio(c, past, e);
    ReadsRight(c, s, past, e);
    OthersLeaveReplies(c, s, e);
    OthersLeaveBuffer(c, s, e);
    hide RepliesAgree, Accepted, PlayedAt, CutFrames, NewFrames, Step;
    SameReplies(c, s, Step(c, s, e), PlayedAt(c, past), CutFrames(c, past));
  }

  lemma {:induction false} StartAgrees(c: Config, clock: real)
    requires ValidConfig(c)
    ensures AudioAgrees(c, Init(c, clock), []) && Accounts(c, Init(c, clock), [])
  {
  }

  /** In every reachable state the buffer, the replies and the numbers in use are what the events say. */
  lemma {:induction false} AudioIsHistory(c: Config, clock: real, events: seq<Event>)
    requires ValidConfig(c) && LegalRun(c, Init(c, clock), events)
    ensures AudioAgrees(c, Run(c, Init(c, clock), events), events)
    decreases |events|
  {
    if events == [] {
      StartAgrees(c, clock);
    } else {
      hide Step, Agrees, AudioAgrees, Enabled;
      Unroll(c, Init(c, clock), events);
      var past, e := Before(events), Last(events);
      var s := Run(c, Init(c, clock), past);
      FlagsAreHistory(c, clock, past);
      AudioIsHistory(c, clock, past);
      assert events == past + [e];
      hide Run, LegalRun, Init;
      if e.AudioOut? { AudioStepAgrees(c, s, past, e); } else { OtherStepAgrees(c, s, past, e); }
    }
  }

  // ---------- the frames on the wire ----------

  lemma {:induction false} UnrollHistory(c: Config, s: State, events: seq<Event>, h: SessionOrder.History)
    requires s.shaper.frameBytes > 0 && LegalRun(c, s, events) && events != []
    requires LegalRun(c, s, Before(events)) && Run(c, s, Before(events)).shaper.frameBytes > 0
    requires Enabled(Run(c, s, Before(events)), Last(events))
    ensures SessionOrder.RunHistory(c, s, events, h)
      == SessionOrder.Record(c, Run(c, s, Before(events)), Last(events),
                             SessionOrder.RunHistory(c, s, Before(events), h))
    decreases |events|
  {
    hide Step, SessionOrder.Record, Enabled;
    var past := Before(events);
    if |events| == 1 {
      assert past == [] && events[1..] == [];
    } else {
      assert past[0] == events[0] && past[1..] == Before(events[1..]) && Last(events[1..]) == Last(events);
      UnrollHistory(c, Step(c, s, events[0]), events[1..], SessionOrder.Record(c, s, events[0], h));
    }
  }

  lemma {:induction false} CutIsHistory(c: Config, clock: real, events: seq<Event>)
    requires ValidConfig(c) && LegalRun(c, Init(c, clock), events)
    ensures SessionOrder.RunHistory(c, Init(c, clock), events, SessionOrder.History([], [], 0)).cut
      == CutFrames(c, events)
    decreases |events|
  {
    if events != [] {
      var past, e := Before(events), Last(events);
      assert events == past + [e] && c.frameBytes > 0 && Init(c, clock).shaper.frameBytes > 0;
      hide *;
      Unroll(c, Init(c, clock), events);
      var s := Run(c, Init(c, clock), past);
      CutIsHistory(c, clock, past);
      FlagsAreHistory(c, clock, past);
      AudioIsHistory(c, clock, past);
      UnrollHistory(c, Init(c, clock), events, SessionOrder.History([], [], 0));
      FramesByWord(c, s, past, e);
      RecordCuts(c, s, e, SessionOrder.RunHistory(c, Init(c, clock), past, SessionOrder.History([], [], 0)));
    }
  }

  /** The frames that one more event cuts are those that it asks for. */
  lemma {:induction false} FramesByWord(c: Config, s: State, past: seq<Event>, e: Event)
    requires c.frameBytes > 0 && Agrees(c, s, past) && AudioAgrees(c, s, past) && Enabled(s, e)
    ensures s.shaper.frameBytes > 0 && CutFrames(c, past + [e]) == CutFrames(c, past) + CutNow(c, s, e)
  {
    OneMoreAudio(c, past, e);
    assert IsPlayed(c, past, e) == (e.AudioOut? && Plays(s));
    if IsPlayed(c, past, e) { CutsWhatEventsSay(c, s, past, e); } else { assert CutNow(c, s, e) == []; }
    hide CutFrames, Agrees, PlayedAt, Accepted, NewFrames, CutNow;
  }

  lemma RecordCuts(c: Config, s: State, e: Event, h: SessionOrder.History)
    requires s.shaper.frameBytes > 0 && Enabled(s, e)
    ensures SessionOrder.Record(c, s, e, h).cut == h.cut + CutNow(c, s, e)
  {
    assert h.cut + [] == h.cut;
    hide S.CutBy, Mint, Speaking;
    if e.AudioOut? { assert Step(c, s, e) == OnAudioOut(c, s, e.now, e.pcm); }
  }

  /** Over every session: the frames on the wire are, in order, some of the frames that the events ask for, with
      exactly those payloads, replies, numbers, chunk numbers and times. */
  lemma WireCarriesWhatEventsSay(c: Config, clock: real, events: seq<Event>) returns (at: seq<nat>)
    requires ValidConfig(c) && LegalRun(c, Init(c, clock), events)
    ensures SessionOrder.Picks(SessionOrder.FramesIn(Run(c, Init(c, clock), events).sent), CutFrames(c, events), at)
  {
    CutIsHistory(c, clock, events);
    at := SessionOrder.FramesArriveInOrder(c, clock, events);
  }

  // ---------- nothing else is lost ----------

  /** Flush orders go out with every throwing away but a re-entry. */
  ghost function FlushCount(c: Config, events: seq<Event>): nat {
    if events == [] then 0
    else
      var past, e := Before(events), Last(events);
      FlushCount(c, past) + if ThrowsAway(c, past, e) && !e.PeerEnter? then 1 else 0
  }

  function FlushesIn(sent: seq<Message>): nat {
    if sent == [] then 0
    else FlushesIn(sent[..|sent| - 1]) + if sent[|sent| - 1] == FlushDownlink then 1 else 0
  }

  function InHand(s: State): nat { if s.shaper.held.Some? then 1 else 0 }

  /** Every frame cut was pushed once, and every frame popped was sent or is in hand. */
  ghost predicate Accounts(c: Config, s: State, past: seq<Event>)
    requires c.frameBytes > 0
  {
    && s.shaper.queue.maxFrames > 0 && Budgets(s.shaper.queue)
    && Accounted(s.shaper.queue) == |CutFrames(c, past)|
    && s.shaper.queue.pops == |SessionOrder.FramesIn(s.sent)| + InHand(s)
    && FlushesIn(s.sent) == FlushCount(c, past)
  }

  lemma {:induction false} PushAllAccounts(q: Queue, now: real, es: seq<Entry>)
    requires q.maxFrames > 0 && Budgets(q)
    ensures var p := S.PushAll(q, now, es);
      Budgets(p) && p.maxFrames == q.maxFrames && Accounted(p) == Accounted(q) + |es| && p.pops == q.pops
    decreases |es|
  {
    if es != [] {
      StepAccounts(q, PushE(now, es[0]));
      PushKeepsPops(q, now, es[0]);
      hide Q.Push, Budgets, Accounted;
      PushAllAccounts(Q.Push(q, now, es[0]), now, es[1..]);
    }
  }

  lemma PushKeepsPops(q: Queue, now: real, e: Entry)
    ensures Q.Push(q, now, e).pops == q.pops
  {
  }

  lemma SentAppends(sent: seq<Message>, m: Message)
    ensures FlushesIn(sent + [m]) == FlushesIn(sent) + (if m == FlushDownlink then 1 else 0)
  {
    assert (sent + [m])[..|sent|] == sent;
  }

  lemma AudioOnlyPushes(c: Config, s: State, e: Event)
    requires s.shaper.frameBytes > 0 && Enabled(s, e) && e.AudioOut?
    ensures var t := Step(c, s, e);
      && t.sent == s.sent && t.shaper.held == s.shaper.held
      && t.shaper.queue == S.PushAll(s.shaper.queue, e.now, CutNow(c, s, e))
  {
    assert Step(c, s, e) == OnAudioOut(c, s, e.now, e.pcm);
    assert S.PushAll(s.shaper.queue, e.now, []) == s.shaper.queue;
    hide Step, S.PushAll, S.CutBy;
  }

  lemma {:induction false} PlayAccounts(c: Config, s: State, past: seq<Event>, e: Event)
    requires c.frameBytes > 0 && Enabled(s, e) && Agrees(c, s, past) && AudioAgrees(c, s, past) && e.AudioOut?
    requires Accounts(c, s, past)
    ensures Accounts(c, Step(c, s, e), past + [e])
  {
    OneMoreAudio(c, past, e);
    AudioOnlyPushes(c, s, e);
    PushAllAccounts(s.shaper.queue, e.now, CutNow(c, s, e));
    SameFlushes(c, past, e);
    assert IsPlayed(c, past, e) == Plays(s);
    if Plays(s) { CutsWhatEventsSay(c, s, past, e); } else { assert CutNow(c, s, e) == []; }
    hide RepliesAgree, Accepted, PlayedAt, CutFrames, S.PushAll, Agrees, NewFrames, Budgets, Accounted, Step, CutNow;
    hide FlushCount, IsPlayed, ThrowsAway, FlushesIn, SessionOrder.FramesIn;
  }

  lemma {:induction false} SameFlushes(c: Config, past: seq<Event>, e: Event)
    ensures FlushCount(c, past + [e]) == FlushCount(c, past) + if ThrowsAway(c, past, e) && !e.PeerEnter? then 1 else 0
    ensures e.AudioOut? ==> !ThrowsAway(c, past, e)
  {
    var all := past + [e];
    assert Before(all) == past && Last(all) == e;
  }

  lemma TakeAccounts(s: State, now: real)
    requires s.shaper.held == None && s.shaper.queue.maxFrames > 0 && Budgets(s.shaper.queue)
    ensures var t := OnTake(s, now);
      && t.sent == s.sent && t.shaper.queue.maxFrames > 0 && Budgets(t.shaper.queue)
      && Accounted(t.shaper.queue) == Accounted(s.shaper.queue)
      && t.shaper.queue.pops == s.shaper.queue.pops + InHand(t)
  {
    StepAccounts(s.shaper.queue, PopE(now));
    hide Budgets, Accounted;
  }

  lemma ResetAccounts(sh: S.Shaper)
    requires Budgets(sh.queue)
    ensures var q := S.Reset(sh).queue;
      Budgets(q) && q.maxFrames == sh.queue.maxFrames && Accounted(q) == Accounted(sh.queue) && q.pops == sh.queue.pops
  {
  }

  /** What the other events do to the queue, the hand and the wire. */
  ghost predicate Balances(s: State, t: State, flushes: bool) {
    && t.shaper.queue.maxFrames > 0 && Budgets(t.shaper.queue)
    && Accounted(t.shaper.queue) == Accounted(s.shaper.queue)
    && t.shaper.queue.pops + |SessionOrder.FramesIn(s.sent)| + InHand(s)
       == s.shaper.queue.pops + |SessionOrder.FramesIn(t.sent)| + InHand(t)
    && FlushesIn(t.sent) == FlushesIn(s.sent) + if flushes then 1 else 0
  }

  predicate Flushes(c: Config, s: State, e: Event) {
    || (e.UpAudio? && Loud(c, s, e) && s.bargeRun + 1 >= c.bargeSustainFrames)
    || (e.CloudSpeechBegins? && s.downSpeaking)
  }

  lemma UplinkFlushes(c: Config, s: State, e: Event)
    requires s.shaper.frameBytes > 0 && Enabled(s, e) && e.UpAudio?
    ensures var t := Step(c, s, e);
      && t.shaper.held == s.shaper.held
      && (t.shaper.queue == s.shaper.queue || t.shaper.queue == S.Reset(s.shaper).queue)
      && t.sent == s.sent + if Flushes(c, s, e) then [FlushDownlink] else []
  {
    assert Step(c, s, e) == OnUpAudio(c, s, e.now, e.loud);
    assert s.sent + [] == s.sent;
    hide Step, S.Reset;
  }

  lemma OthersFlushOrLeave(c: Config, s: State, e: Event)
    requires s.shaper.frameBytes > 0 && Enabled(s, e) && !e.AudioOut? && !e.Take? && !e.Send?
    ensures var t := Step(c, s, e);
      && t.shaper.held == s.shaper.held
      && (t.shaper.queue == s.shaper.queue || t.shaper.queue == S.Reset(s.shaper).queue)
      && t.sent == s.sent + if Flushes(c, s, e) then [FlushDownlink] else []
  {
    assert s.sent + [] == s.sent;
    hide S.Reset;
    match e
    case UpAudio(_, _) => UplinkFlushes(c, s, e);
    case CheckSpeakingOver(now, sb, ab) => assert Step(c, s, e) == OnCheckSpeakingOver(c, s, now, sb, ab);
    case _ =>
  }

  lemma OthersBalance(c: Config, s: State, e: Event)
    requires s.shaper.frameBytes > 0 && Enabled(s, e) && !e.AudioOut? && !e.Take? && !e.Send?
    requires s.shaper.queue.maxFrames > 0 && Budgets(s.shaper.queue)
    ensures Balances(s, Step(c, s, e), Flushes(c, s, e))
  {
    OthersFlushOrLeave(c, s, e);
    ResetAccounts(s.shaper);
    SentAppends(s.sent, FlushDownlink);
    SessionOrder.FlushIsNoFrame(s.sent);
    assert s.sent + [] == s.sent;
    hide Budgets, Accounted, SessionOrder.FramesIn, FlushesIn, Step, Flushes, Enabled, S.Reset;
  }

  lemma PacingBalances(c: Config, s: State, e: Event)
    requires s.shaper.frameBytes > 0 && Enabled(s, e) && (e.Take? || e.Send?)
    requires s.shaper.queue.maxFrames > 0 && Budgets(s.shaper.queue)
    ensures Balances(s, Step(c, s, e), false)
  {
    hide Budgets, Accounted, SessionOrder.FramesIn, FlushesIn;
    if e.Take? {
      assert Step(c, s, e) == OnTake(s, e.now);
      TakeAccounts(s, e.now);
      hide OnTake;
    } else {
      var m := DownAudio(s.shaper.held.value.entry);
      assert Step(c, s, e) == OnSend(s, e.now);
      SentAppends(s.sent, m);
      SessionOrder.FramesInAppend(s.sent, m);
    }
  }

  lemma {:induction false} OtherAccounts(c: Config, s: State, past: seq<Event>, e: Event)
    requires c.frameBytes > 0 && s.shaper.frameBytes > 0 && Enabled(s, e) && Agrees(c, s, past) && !e.AudioOut?
    requires Accounts(c, s, past)
    ensures Accounts(c, Step(c, s, e), past + [e])
  {
    OneMoreAudio(c, past, e);
    ReadsRight(c, s, past, e);
    SameFlushes(c, past, e);
    assert (ThrowsAway(c, past, e) && !e.PeerEnter?) == Flushes(c, s, e);
    if e.Take? || e.Send? { PacingBalances(c, s, e); } else { OthersBalance(c, s, e); }
    hide CutFrames, NewFrames, Budgets, Accounted, Step, Reads, Agrees, ThrowsAway, Flushes, FlushCount, Enabled;
    hide SessionOrder.FramesIn, FlushesIn;
    assert CutFrames(c, past) + [] == CutFrames(c, past);
  }

  lemma {:induction false} RunAccounts(c: Config, clock: real, events: seq<Event>)
    requires ValidConfig(c) && LegalRun(c, Init(c, clock), events)
    ensures Accounts(c, Run(c, Init(c, clock), events), events)
    decreases |events|
  {
    if events == [] {
      StartAgrees(c, clock);
    } else {
      hide Step, Agrees, Accounts, Enabled;
      Unroll(c, Init(c, clock), events);
      var past, e := Before(events), Last(events);
      var s := Run(c, Init(c, clock), past);
      FlagsAreHistory(c, clock, past);
      AudioIsHistory(c, clock, past);
      RunAccounts(c, clock, past);
      assert events == past + [e];
      hide Run, LegalRun, Init;
      if e.AudioOut? { PlayAccounts(c, s, past, e); } else { OtherAccounts(c, s, past, e); }
    }
  }

  /** Over every session: each frame that the events ask for is on the wire, in hand, queued, dropped by the queue
      for its age or for overload, or thrown away, and the flush orders on the wire are those the events ask for. */
  lemma EveryFrameIsAccountedFor(c: Config, clock: real, events: seq<Event>)
    requires ValidConfig(c) && LegalRun(c, Init(c, clock), events)
    ensures var s := Run(c, Init(c, clock), events);
      && |CutFrames(c, events)|
         == |SessionOrder.FramesIn(s.sent)| + InHand(s) + |s.shaper.queue.entries|
            + s.shaper.queue.drops + s.shaper.queue.flushDropped
      && FlushesIn(s.sent) == FlushCount(c, events)
  {
    RunAccounts(c, clock, events);
  }
}
