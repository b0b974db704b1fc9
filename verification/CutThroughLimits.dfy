/** Where the cut-through ends: the exact bound on the reply gap, the audio that slips into a cloud
    interrupt, and the cloud path that can leave a window open for good. */
module CutThroughLimits {
  import opened Outcomes
  import opened FrameBuffer
  import opened AudioQueue
  import Q = AudioQueue
  import S = Shaper
  import opened Session
  import opened CutThrough
  import opened CloudCut

  // ---------- an example: one played frame, then two at once ----------

  const FRAME_BYTES: nat := 640
  const FRAME_S: real := 0.02

  /** The default frames of 20 ms at 16 kHz; one loud frame suffices to interrupt. */
  function Example(gap: real): Config {
    Config(FRAME_BYTES, FRAME_S, gap, 0.0, 1, true, false, New(10, 6400, 100000))
  }

  /** The first reply is being played, nothing is on its way, the last audio came at 0. */
  predicate Idle(s: State, at: real) {
    && s.replySeq == 1 && s.lastDownMono == 0.0 && s.clock == at && Plays(s)
    && IdleShaper(s.shaper) && s.shaper.queue.entries == []
  }

  predicate IdleShaper(sh: S.Shaper) {
    && sh.frameBytes == FRAME_BYTES && sh.frameS == FRAME_S && sh.reply == 1 && sh.buf == []
    && sh.queue.maxFrames == 10 && sh.queue.maxBytes == 6400 && sh.queue.maxAgeMs == 100000
    && sh.held == None && sh.t0 == None
  }

  /** One frame played at 0, still queued. */
  predicate Playing(s: State) {
    && s.replySeq == 1 && s.lastDownMono == 0.0 && s.clock == 0.0 && Plays(s) && s.sent == []
    && s.downSpeaking && s.downSpeakingSince == 0.0 && s.lastDownTs == 0.0 && s.bargeRun == 0 && s.cloudPending == 0
    && IdleShaper(s.shaper)
  }

  lemma {:induction false} WholeFrames(b: Bytes)
    requires |b| == FRAME_BYTES
    ensures Frames(b, FRAME_BYTES) == [b] && Residue(b, FRAME_BYTES) == []
    ensures Frames(b + b, FRAME_BYTES) == [b, b] && Residue(b + b, FRAME_BYTES) == []
  {
    assert b[..FRAME_BYTES] == b && b[FRAME_BYTES..] == [];
    assert (b + b)[..FRAME_BYTES] == b && (b + b)[FRAME_BYTES..] == b;
    assert Frames([], FRAME_BYTES) == [] && Residue([], FRAME_BYTES) == [];
  }

  lemma {:induction false} PushKeepsShaper(q: Queue, now: real, es: seq<Entry>)
    ensures var p := S.PushAll(q, now, es);
      p.maxFrames == q.maxFrames && p.maxBytes == q.maxBytes && p.maxAgeMs == q.maxAgeMs
    decreases |es|
  {
    if es != [] { PushKeepsShaper(Q.Push(q, now, es[0]), now, es[1..]); }
  }

  /** The shaper after its first frame. */
  lemma FirstPush(sh: S.Shaper, b: Bytes, src: int) returns (t: S.Shaper)
    requires IdleShaper(sh) && |b| == FRAME_BYTES
    ensures t == S.Push(sh, 0.0, b, src) && IdleShaper(t)
  {
    t := S.Push(sh, 0.0, b, src);
    assert [] + b == b;
    WholeFrames(b);
    PushKeepsShaper(sh.queue, 0.0, S.CutBy(sh, 0.0, b, src));
  }

  lemma FirstChunk(gap: real, b: Bytes) returns (s: State)
    requires |b| == FRAME_BYTES
    ensures s == OnAudioOut(Example(gap), Init(Example(gap), 0.0), 0.0, b) && Playing(s)
  {
    var c := Example(gap);
    var m := Mint(c, Speaking(Init(c, 0.0), 0.0), 0.0);
    var t := FirstPush(m.shaper, b, m.chunkSeq);
    s := OnAudioOut(c, Init(c, 0.0), 0.0, b);
  }

  lemma PlayingIsReachable(gap: real, b: Bytes) returns (s: State)
    requires |b| == FRAME_BYTES
    ensures ValidConfig(Example(gap)) && Reachable(Example(gap), s) && Playing(s)
  {
    var c := Example(gap);
    s := FirstChunk(gap, b);
    OneStepIsReachable(c, 0.0, AudioOut(0.0, b), s);
  }

  lemma {:induction false} OneStepIsReachable(c: Config, clock: real, e: Event, s: State)
    requires ValidConfig(c) && clock >= 0.0 && Enabled(Init(c, clock), e) && s == Step(c, Init(c, clock), e)
    ensures Reachable(c, s)
  {
    hide Step;
    var events := [e];
    assert events[1..] == [];
    assert LegalRun(c, s, []) && Run(c, s, []) == s;
    assert LegalRun(c, Init(c, clock), events) && Run(c, Init(c, clock), events) == s;
  }

  lemma {:induction false} TwoPushes(q: Queue, now: real, es: seq<Entry>)
    requires q.entries == [] && q.maxFrames == 10 && q.maxBytes == 6400 && |es| == 2
    requires SizeOf(es[0]) == FRAME_BYTES && SizeOf(es[1]) == FRAME_BYTES
    requires es[0].createdAt == now && es[1].createdAt == now
    ensures S.PushAll(q, now, es).entries == es
  {
    var q1 := Q.Push(q, now, es[0]);
    assert q1.entries == [es[0]];
    var q2 := Q.Push(q1, now, es[1]);
    assert TotalBytes([es[0]]) == FRAME_BYTES by { assert [es[0]][1..] == []; }
    assert q2.entries == [es[0], es[1]] == es;
    hide Q.Push;
    assert S.PushAll(q2, now, es[1..][1..]) == q2;
    assert S.PushAll(q1, now, es[1..]) == q2;
  }

  /** Two frames of the first reply wait, both cut just now. */
  predicate Loaded(s: State, at: real) {
    && s.clock == at && s.replySeq == 1 && IdleShaper(s.shaper) && |s.shaper.queue.entries| == 2
    && s.shaper.queue.entries[0].reply == 1 && s.shaper.queue.entries[1].reply == 1
    && s.shaper.queue.entries[0].createdAt == at && s.shaper.queue.entries[1].createdAt == at
  }

  lemma {:induction false} SecondPush(sh: S.Shaper, at: real, b: Bytes, src: int) returns (t: S.Shaper)
    requires IdleShaper(sh) && sh.queue.entries == [] && |b| == FRAME_BYTES
    ensures t == S.Push(sh, at, b + b, src) && IdleShaper(t) && |t.queue.entries| == 2
    ensures t.queue.entries[0].reply == 1 && t.queue.entries[1].reply == 1
    ensures t.queue.entries[0].createdAt == at && t.queue.entries[1].createdAt == at
  {
    t := S.Push(sh, at, b + b, src);
    assert [] + (b + b) == b + b;
    WholeFrames(b);
    var cut := S.CutBy(sh, at, b + b, src);
    TwoPushes(sh.queue, at, cut);
    PushKeepsShaper(sh.queue, at, cut);
  }

  /** The model goes on soon enough for the old reply to continue. */
  lemma SecondChunk(gap: real, s: State, at: real, b: Bytes) returns (t: State)
    requires Idle(s, at) && |b| == FRAME_BYTES && 0.0 <= at <= gap
    ensures t == OnAudioOut(Example(gap), s, at, b + b) && Loaded(t, at)
    ensures t.sent == s.sent && t.bargeIn == s.bargeIn && t.cloudPending == s.cloudPending
  {
    var m := Mint(Example(gap), Speaking(s, at), at);
    var sh := SecondPush(m.shaper, at, b, m.chunkSeq);
    t := OnAudioOut(Example(gap), s, at, b + b);
  }

  /** A queued frame that is young is taken and, once due, sent. */
  lemma TakenAndSent(s: State, now: real, due: real) returns (t: State, u: State)
    requires s.shaper.held == None && s.clock <= now <= due && s.shaper.frameS == FRAME_S
    requires s.shaper.queue.entries != [] && s.shaper.queue.entries[0].createdAt == now
    requires s.shaper.t0 == None ==> due == now
    requires s.shaper.t0 != None ==> s.shaper.t0 == Some(now) && s.shaper.n == 1 && due == now + FRAME_S
    ensures t == OnTake(s, now) && t.shaper.held.Some? && t.shaper.held.value.wake <= due && t.clock == now
    ensures u == OnSend(t, due) && u.sent == s.sent + [DownAudio(s.shaper.queue.entries[0])] && u.clock == due
    ensures u.shaper.queue.entries == s.shaper.queue.entries[1..] && u.shaper.held == None
    ensures u.shaper.frameS == FRAME_S && u.shaper.frameBytes == s.shaper.frameBytes
    ensures s.shaper.t0 == None ==> u.shaper.t0 == Some(now) && u.shaper.n == 1
  {
    assert ExpiredHead(s.shaper.queue.entries, now, s.shaper.queue.maxAgeMs) == 0;
    assert s.shaper.queue.entries[0..] == s.shaper.queue.entries;
    t := OnTake(s, now);
    u := OnSend(t, due);
  }

  lemma {:induction false} BothAreSent(c: Config, s: State, at: real) returns (later: seq<Event>)
    requires Loaded(s, at)
    ensures LegalRun(c, s, later) && NobodyEnters(later)
    ensures var q := s.shaper.queue.entries;
      Run(c, s, later).sent == s.sent + [DownAudio(q[0])] + [DownAudio(q[1])]
  {
    var t, u := TakenAndSent(s, at, at);
    var v, w := TakenAndSent(u, at, at + FRAME_S);
    assert t == Step(c, s, Take(at)) && u == Step(c, t, Send(at));
    assert v == Step(c, u, Take(at)) && w == Step(c, v, Send(at + FRAME_S));
    assert LegalRun(c, w, []) && Run(c, w, []) == w;
    hide Step, OnTake, OnSend;
    later := Prepend(c, v, Send(at + FRAME_S), []);
    later := Prepend(c, u, Take(at), later);
    later := Prepend(c, t, Send(at), later);
    later := Prepend(c, s, Take(at), later);
  }

  lemma {:induction false} TwoCount(sent: seq<Message>, a: Entry, b: Entry, span: Span)
    requires Within(span, a) && Within(span, b)
    ensures FramesOf(sent + [DownAudio(a)] + [DownAudio(b)], span) == FramesOf(sent, span) + 2
  {
    FramesOfAppend(sent, DownAudio(a), span);
    FramesOfAppend(sent + [DownAudio(a)], DownAudio(b), span);
  }

  // ---------- the reply gap must not exceed the window's silence ----------

  ghost predicate CutSituation(c: Config, s: State, e: Event, later: seq<Event>) {
    && Reachable(c, s) && s.shaper.frameBytes > 0
    && OpensWindow(c, s, e) && LegalRun(c, Step(c, s, e), later) && NobodyEnters(later)
  }

  ghost function FramesAfter(c: Config, s: State, e: Event, later: seq<Event>): nat
    requires CutSituation(c, s, e, later)
  {
    var end := Run(c, Step(c, s, e), later);
    if |s.sent| <= |end.sent| then FramesOf(end.sent[|s.sent|..], Span(s.replySeq, s.replySeq)) else 0
  }

  /** After a window opens, at most one more frame of the interrupted reply is ever sent. */
  ghost predicate CutsThrough(c: Config) {
    forall s, e, later | CutSituation(c, s, e, later) :: FramesAfter(c, s, e, later) <= 1
  }

  /** The user speaks up at 0; the window has closed again when the silence is longer than 0.6 s. */
  lemma InterruptedThenClosed(gap: real, s: State) returns (s1: State, s2: State)
    requires gap > 0.6 && Playing(s)
    ensures OpensWindow(Example(gap), s, UpAudio(0.0, true)) && s1 == Step(Example(gap), s, UpAudio(0.0, true))
    ensures Enabled(s1, CheckSpeakingOver(gap, false, false))
    ensures s2 == Step(Example(gap), s1, CheckSpeakingOver(gap, false, false))
    ensures Idle(s2, gap) && s2.sent == [FlushDownlink]
    ensures s1.shaper.frameBytes > 0
  {
    var c := Example(gap);
    s1 := OnUpAudio(c, s, 0.0, true);
    assert s1.bargeIn && s1.sent == [FlushDownlink];
    s2 := OnCheckSpeakingOver(c, s1, gap, false, false);
  }

  /** The model goes on after the window has closed but before a new reply would start. */
  lemma {:induction false} ContinuationLeaks(gap: real, s1: State, s2: State, b: Bytes) returns (later: seq<Event>)
    requires gap > 0.6 && s1.shaper.frameBytes > 0 && Idle(s2, gap) && s2.sent == [FlushDownlink] && |b| == FRAME_BYTES
    requires Enabled(s1, CheckSpeakingOver(gap, false, false))
    requires s2 == Step(Example(gap), s1, CheckSpeakingOver(gap, false, false))
    ensures LegalRun(Example(gap), s1, later) && NobodyEnters(later)
    ensures FramesOf(Run(Example(gap), s1, later).sent, Span(1, 1)) == 2
  {
    var c := Example(gap);
    var t := SecondChunk(gap, s2, gap, b);
    assert t == Step(c, s2, AudioOut(gap, b + b));
    hide Step;
    later := BothAreSent(c, t, gap);
    var q := t.shaper.queue.entries;
    TwoCount([FlushDownlink], q[0], q[1], Span(1, 1));
    assert [FlushDownlink][1..] == [] && FramesOf([FlushDownlink], Span(1, 1)) == 0;
    later := Prepend(c, s2, AudioOut(gap, b + b), later);
    later := Prepend(c, s1, CheckSpeakingOver(gap, false, false), later);
  }

  lemma SomeFrame() returns (b: Bytes)
    ensures |b| == FRAME_BYTES
  {
    b := seq(FRAME_BYTES, _ => 0);
  }

  lemma {:induction false} TwoFramesSlipThrough(gap: real)
    requires gap > 0.6
    ensures ValidConfig(Example(gap)) && !CutsThrough(Example(gap))
  {
    var c := Example(gap);
    var b := SomeFrame();
    var s := PlayingIsReachable(gap, b);
    var s1, s2 := InterruptedThenClosed(gap, s);
    var later := ContinuationLeaks(gap, s1, s2, b);
    hide Step, Run, LegalRun, Reachable, OpensWindow, FramesOf;
    Refutes(c, s, UpAudio(0.0, true), later);
  }

  /** Two frames after the window refute the cut-through. */
  lemma {:induction false} Refutes(c: Config, s: State, e: Event, later: seq<Event>)
    requires CutSituation(c, s, e, later) && s.sent == [] && s.replySeq == 1
    requires FramesOf(Run(c, Step(c, s, e), later).sent, Span(1, 1)) == 2
    ensures !CutsThrough(c)
  {
    hide Step, FramesOf, Reachable;
    var end := Run(c, Step(c, s, e), later);
    assert end.sent[0..] == end.sent;
    assert FramesAfter(c, s, e, later) == 2;
  }

  /** The exact bound: the cut-through holds for every configuration with this reply gap if and only
      if the gap is at most the 0.6 s of silence that close a window. */
  lemma {:induction false} CutsThroughIffGapFitsWindow(gap: real)
    ensures (forall c | ValidConfig(c) && c.newReplyGapS == gap :: CutsThrough(c)) <==> gap <= 0.6
  {
    hide Step, Run, LegalRun, Reachable, OpensWindow, FramesOf;
    if gap > 0.6 {
      TwoFramesSlipThrough(gap);
      assert Example(gap).newReplyGapS == gap;
    } else {
      forall c, s, e, later | ValidConfig(c) && c.newReplyGapS == gap && CutSituation(c, s, e, later)
        ensures FramesAfter(c, s, e, later) <= 1
      {
        InterruptCutsThrough(c, s, e, later, s.replySeq);
      }
    }
  }

  // ---------- audio slips into a cloud interrupt ----------

  /** The audio arriving between the halves of a cloud interrupt is queued and sent: with the default gap of
      0.5 s, two frames of the interrupted reply that were not even in hand when the interrupt came. */
  lemma {:induction false} AudioSlipsIntoCloudInterrupt(b: Bytes)
    returns (c: Config, s: State, mid: seq<Event>, later: seq<Event>)
    requires |b| == FRAME_BYTES
    ensures c.newReplyGapS == 0.5 && Reachable(c, s) && CloudInterrupt(c, s, 0.0, mid) && mid == [AudioOut(0.0, b + b)]
    ensures var w := WindowOpen(c, s, 0.0, mid);
      && w.shaper.frameBytes > 0 && YoungAhead(w) && LegalRun(c, w, later) && NobodyEnters(later)
      && s.replySeq == 1 && InHand(s, Span(1, 1)) == 0 && s.sent == []
      && FramesOf(Run(c, w, later).sent, Span(1, 1)) == 2
  {
    c := Example(0.5);
    s := PlayingIsReachable(0.5, b);
    var t := OnCloudSpeechBegins(s, 0.0);
    assert Idle(t, 0.0) && t.sent == [FlushDownlink] && t.cloudPending == 1;
    var m := SecondChunk(0.5, t, 0.0, b);
    mid := [AudioOut(0.0, b + b)];
    OneStepRun(c, t, AudioOut(0.0, b + b), m);
    var w := OnCloudSpeechEnds(m);
    assert Loaded(w, 0.0) && w.sent == [FlushDownlink] && WindowOpen(c, s, 0.0, mid) == w;
    LoadedIsYoung(w, 0.0);
    hide Step, Run, LegalRun, Reachable, OnCloudSpeechBegins, OnCloudSpeechEnds, YoungAhead;
    later := BothAreSent(c, w, 0.0);
    var q := w.shaper.queue.entries;
    TwoCount([FlushDownlink], q[0], q[1], Span(1, 1));
    assert [FlushDownlink][1..] == [] && FramesOf([FlushDownlink], Span(1, 1)) == 0;
  }

  lemma {:induction false} OneStepRun(c: Config, s: State, e: Event, t: State)
    requires s.shaper.frameBytes > 0 && Enabled(s, e) && t == Step(c, s, e)
    ensures LegalRun(c, s, [e]) && Run(c, s, [e]) == t
  {
    hide Step;
    assert [e][1..] == [];
    assert LegalRun(c, t, []) && Run(c, t, []) == t;
  }

  lemma LoadedIsYoung(s: State, at: real)
    requires Loaded(s, at)
    ensures YoungAhead(s)
  {
    assert ExpiredHead(s.shaper.queue.entries, at, s.shaper.queue.maxAgeMs) == 0;
    assert s.shaper.queue.entries[0..] == s.shaper.queue.entries;
  }

  // ---------- the cloud path can wedge a session ----------

  /** A window with nobody speaking: only speaking being over would close it. */
  predicate Wedged(s: State) {
    s.bargeIn && !s.downSpeaking && (s.standby || !s.markerTailDrop)
  }

  /** The exact step that opens a window nobody will close: the cloud handler resuming after speaking
      has ended. Every other step keeps windows inside speaking spells. */
  lemma OnlyLateCloudOpensOutsideSpeech(c: Config, s: State, e: Event)
    requires s.shaper.frameBytes > 0 && Enabled(s, e) && (s.bargeIn ==> s.downSpeaking)
    ensures (Step(c, s, e).bargeIn ==> Step(c, s, e).downSpeaking) <==> !(e.CloudSpeechEnds? && !s.downSpeaking)
  {
  }

  /** Every state a run passes has its window inside a speaking spell. */
  ghost predicate AlwaysInside(c: Config, s: State, events: seq<Event>)
    requires s.shaper.frameBytes > 0 && LegalRun(c, s, events)
    decreases |events|
  {
    (s.bargeIn ==> s.downSpeaking) && (events == [] || AlwaysInside(c, Step(c, s, events[0]), events[1..]))
  }

  /** The cloud handler never resumes after speaking has ended. */
  ghost predicate NoLateCloud(c: Config, s: State, events: seq<Event>)
    requires s.shaper.frameBytes > 0 && LegalRun(c, s, events)
    decreases |events|
  {
    events == [] ||
    (!(events[0].CloudSpeechEnds? && !s.downSpeaking) && NoLateCloud(c, Step(c, s, events[0]), events[1..]))
  }

  /** Windows stay inside speaking spells over a whole run if and only if the cloud handler is never late;
      the local path cannot break it. */
  lemma {:induction false} InsideIffNoLateCloud(c: Config, s: State, events: seq<Event>)
    requires s.shaper.frameBytes > 0 && LegalRun(c, s, events) && (s.bargeIn ==> s.downSpeaking)
    ensures AlwaysInside(c, s, events) <==> NoLateCloud(c, s, events)
    decreases |events|
  {
    if events != [] {
      var next := Step(c, s, events[0]);
      OnlyLateCloudOpensOutsideSpeech(c, s, events[0]);
      hide Step;
      if next.bargeIn ==> next.downSpeaking { InsideIffNoLateCloud(c, next, events[1..]); }
    }
  }

  /** A run in which the cloud handler is one uninterrupted piece. */
  ghost predicate AtomicCloud(c: Config, s: State, events: seq<Event>)
    requires s.shaper.frameBytes > 0 && LegalRun(c, s, events)
    decreases |events|
  {
    if events == [] then true
    else
      var next, rest := Step(c, s, events[0]), events[1..];
      assert LegalRun(c, next, rest);
      if events[0].CloudSpeechBegins? && s.downSpeaking
      then rest != [] && rest[0].CloudSpeechEnds? && AtomicCloud(c, Step(c, next, rest[0]), rest[1..])
      else !events[0].CloudSpeechEnds? && AtomicCloud(c, next, rest)
  }

  /** With atomic handlers both paths keep their windows inside speaking spells. */
  lemma {:induction false} AtomicCloudIsNeverLate(c: Config, s: State, events: seq<Event>)
    requires s.shaper.frameBytes > 0 && LegalRun(c, s, events) && AtomicCloud(c, s, events)
    ensures NoLateCloud(c, s, events)
    decreases |events|
  {
    if events != [] {
      var next, rest := Step(c, s, events[0]), events[1..];
      assert LegalRun(c, next, rest);
      if events[0].CloudSpeechBegins? && s.downSpeaking {
        assert next.downSpeaking;
        hide Step;
        AtomicCloudIsNeverLate(c, Step(c, next, rest[0]), rest[1..]);
        assert NoLateCloud(c, next, rest);
      } else {
        hide Step;
        AtomicCloudIsNeverLate(c, next, rest);
      }
    }
  }

  /** The wedge is three steps away from any spell without markers: the cloud event arrives, speaking ends
      while its handler waits, the handler resumes. */
  lemma LateCloudWedges(c: Config, s: State, now: real)
    requires s.shaper.frameBytes > 0 && s.downSpeaking && !s.bargeIn && now >= s.clock && now >= s.lastDownTs
    ensures var begun, over := CloudSpeechBegins(now), CheckSpeakingOver(now + 0.7, false, false);
      && Enabled(s, begun) && Enabled(Step(c, s, begun), over)
      && Enabled(Step(c, Step(c, s, begun), over), CloudSpeechEnds)
      && var end := Step(c, Step(c, Step(c, s, begun), over), CloudSpeechEnds);
         end.bargeIn && !end.downSpeaking && !end.markerTailDrop
  {
  }

  /** From then on every chunk is discarded, whatever happens, until a peer re-enters. */
  lemma {:induction false} WedgedForGood(c: Config, s: State, events: seq<Event>)
    requires s.shaper.frameBytes > 0 && s.bargeIn && !s.downSpeaking && !s.markerTailDrop && LegalRun(c, s, events)
    requires forall i :: 0 <= i < |events| ==> !events[i].PeerEnter?
    ensures var end := Run(c, s, events);
            && Wedged(end) && !end.markerTailDrop
            && end.replySeq == s.replySeq && end.chunkSeq == s.chunkSeq
            && end.shaper.frameSeq == s.shaper.frameSeq
    decreases |events|
  {
    if events != [] {
      WedgedForGood(c, Step(c, s, events[0]), events[1..]);
    }
  }
}
