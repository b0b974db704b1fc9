/** Framing and order from the model's audio to the socket, over a whole session. */
module SessionOrder {
  import opened Outcomes
  import opened FrameBuffer
  import opened AudioQueue
  import Q = AudioQueue
  import S = Shaper
  import CT = CutThrough
  import opened Session

  // ---------- order ----------

  predicate Before(a: Entry, b: Entry) {
    a.reply < b.reply || (a.reply == b.reply && a.frameSeq < b.frameSeq)
  }

  ghost predicate Ordered(es: seq<Entry>) {
    forall i, j :: 0 <= i < j < |es| ==> Before(es[i], es[j])
  }

  ghost predicate AllBefore(es: seq<Entry>, e: Entry) {
    forall i :: 0 <= i < |es| ==> Before(es[i], e)
  }

  ghost predicate Within(es: seq<Entry>, all: seq<Entry>) {
    forall i :: 0 <= i < |es| ==> es[i] in all
  }

  /** The frames among the messages. */
  function FramesIn(sent: seq<Message>): seq<Entry> {
    if sent == [] then []
    else FramesIn(sent[..|sent| - 1]) + if sent[|sent| - 1].DownAudio? then [sent[|sent| - 1].frame] else []
  }

  lemma FramesInAppend(sent: seq<Message>, m: Message)
    ensures FramesIn(sent + [m]) == FramesIn(sent) + if m.DownAudio? then [m.frame] else []
  {
    assert (sent + [m])[..|sent|] == sent;
  }

  /** Everything on its way: sent, in hand, queued. */
  function Held(s: State): seq<Entry> {
    if s.shaper.held.Some? then [s.shaper.held.value.entry] else []
  }

  function Ahead(s: State): seq<Entry> { FramesIn(s.sent) + Held(s) }

  /** The label the next frame would get. */
  function NextLabel(s: State): Entry {
    Entry([], 0, 0.0, s.replySeq, s.shaper.frameSeq, 0)
  }

  // ---------- what the session was given ----------

  /** History of a run: every frame ever cut, the audio accepted since the last reset, and how many
      frames had been cut by then. No code reads it. */
  datatype History = History(cut: seq<Entry>, accepted: Bytes, base: nat)

  predicate Resets(c: Config, s: State, e: Event)
    requires s.shaper.frameBytes > 0 && Enabled(s, e)
  {
    (e.UpAudio? && !s.bargeIn && Step(c, s, e).bargeIn) || (e.CloudSpeechBegins? && s.downSpeaking) || e.PeerEnter?
  }

  function Record(c: Config, s: State, e: Event, h: History): History
    requires s.shaper.frameBytes > 0 && Enabled(s, e)
  {
    if Resets(c, s, e) then History(h.cut, [], |h.cut|)
    else if e.AudioOut? && Plays(s) then History(h.cut + CutNow(c, s, e), h.accepted + e.pcm, h.base)
    else h
  }

  function Payloads(es: seq<Entry>): seq<Bytes> {
    seq(|es|, i requires 0 <= i < |es| => es[i].payload)
  }

  /** What was cut since the last reset are the frames of the audio accepted since, the buffer is the rest. */
  ghost predicate Framed(s: State, h: History) {
    && s.shaper.frameBytes > 0 && h.base <= |h.cut|
    && Payloads(h.cut[h.base..]) == Frames(h.accepted, s.shaper.frameBytes)
    && s.shaper.buf == Residue(h.accepted, s.shaper.frameBytes)
  }

  ghost predicate InOrder(s: State, h: History) {
    && Ordered(h.cut) && AllBefore(h.cut, NextLabel(s))
    && Ordered(Ahead(s) + s.shaper.queue.entries)
    && Within(Ahead(s) + s.shaper.queue.entries, h.cut)
    && s.shaper.reply == s.replySeq
  }

  ghost predicate Kept(c: Config, s: State, h: History) {
    s.shaper.frameBytes == c.frameBytes && Framed(s, h) && InOrder(s, h)
  }

  // ---------- framing ----------

  lemma LabelledPayloads(frames: seq<Bytes>, now: real, g: nat, reply: nat, frameSeq: nat, src: int)
    ensures Payloads(S.Labelled(frames, now, g, reply, frameSeq, src)) == frames
  {
  }

  lemma PushFramed(sh: S.Shaper, now: real, pcm: Bytes, src: int, past: seq<Entry>, accepted: Bytes)
    requires sh.frameBytes > 0
    requires Payloads(past) == Frames(accepted, sh.frameBytes) && sh.buf == Residue(accepted, sh.frameBytes)
    ensures Payloads(past + S.CutBy(sh, now, pcm, src)) == Frames(accepted + pcm, sh.frameBytes)
    ensures S.Push(sh, now, pcm, src).buf == Residue(accepted + pcm, sh.frameBytes)
  {
    CutIsIrrelevant(accepted, pcm, sh.frameBytes);
    LabelledPayloads(Frames(sh.buf + pcm, sh.frameBytes), now, sh.queue.generation, sh.reply, sh.frameSeq, src);
    PayloadsAppend(past, S.CutBy(sh, now, pcm, src));
  }

  lemma PayloadsAppend(a: seq<Entry>, b: seq<Entry>)
    ensures Payloads(a + b) == Payloads(a) + Payloads(b)
  {
  }

  lemma StepFramed(c: Config, s: State, e: Event, h: History)
    requires c.frameBytes > 0 && Kept(c, s, h) && Enabled(s, e)
    ensures Framed(Step(c, s, e), Record(c, s, e, h))
  {
    if e.AudioOut? {
      AudioFramed(c, s, e, h);
    } else {
      BufKeptOrCleared(c, s, e);
      hide Step, Resets;
      assert h.cut[|h.cut|..] == [] && Payloads([]) == [];
    }
  }

  lemma AudioFramed(c: Config, s: State, e: Event, h: History)
    requires c.frameBytes > 0 && Kept(c, s, h) && Enabled(s, e) && e.AudioOut?
    ensures Framed(Step(c, s, e), Record(c, s, e, h))
  {
    if Plays(s) {
      var m := Mint(c, Speaking(s, e.now), e.now);
      PushFramed(m.shaper, e.now, e.pcm, m.chunkSeq, h.cut[h.base..], h.accepted);
      assert (h.cut + CutNow(c, s, e))[h.base..] == h.cut[h.base..] + CutNow(c, s, e);
    }
  }

  lemma BufKeptOrCleared(c: Config, s: State, e: Event)
    requires s.shaper.frameBytes > 0 && Enabled(s, e) && !e.AudioOut?
    ensures Step(c, s, e).shaper.buf == if Resets(c, s, e) then [] else s.shaper.buf
  {
    match e
    case UpAudio(now, loud) => assert Step(c, s, e) == OnUpAudio(c, s, now, loud);
    case Take(now) => assert Step(c, s, e) == OnTake(s, now);
    case Send(now) => assert Step(c, s, e) == OnSend(s, now);
    case CheckSpeakingOver(now, sb, ab) => assert Step(c, s, e) == OnCheckSpeakingOver(c, s, now, sb, ab);
    case _ =>
  }

  // ---------- order ----------

  /** Dropping the oldest queued entries and appending a later one keeps the order. */
  lemma DropAndAppend(ahead: seq<Entry>, q: seq<Entry>, k: nat, e: Entry)
    requires k <= |q| && Ordered(ahead + q) && AllBefore(ahead + q, e)
    ensures Ordered(ahead + (q[k..] + [e]))
  {
    DropMiddle(ahead, q, k);
    var a, b := ahead + q[k..], ahead + (q[k..] + [e]);
    assert b == a + [e];
    forall i | 0 <= i < |a| ensures Before(a[i], e) {
      assert a[i] == if i < |ahead| then (ahead + q)[i] else (ahead + q)[i + k];
    }
  }

  lemma DropMiddle(ahead: seq<Entry>, q: seq<Entry>, k: nat)
    requires k <= |q| && Ordered(ahead + q)
    ensures Ordered(ahead + q[k..]) && Within(ahead + q[k..], ahead + q)
  {
    var a := ahead + q[k..];
    forall i | 0 <= i < |a| ensures a[i] == (ahead + q)[if i < |ahead| then i else i + k] {}
  }

  lemma PushInOrder(ahead: seq<Entry>, q: Queue, now: real, e: Entry, all: seq<Entry>)
    requires Ordered(ahead + q.entries) && AllBefore(ahead + q.entries, e)
    requires Within(ahead + q.entries, all) && e in all
    ensures Ordered(ahead + Q.Push(q, now, e).entries) && Within(ahead + Q.Push(q, now, e).entries, all)
    ensures forall f :: Before(e, f) && AllBefore(ahead + q.entries, f) ==>
              AllBefore(ahead + Q.Push(q, now, e).entries, f)
  {
    var k := PushIsDropAndAppend(q, now, e);
    hide Q.Push;
    DropMiddle(ahead, q.entries, k);
    DropAndAppend(ahead, q.entries, k, e);
    var kept := ahead + q.entries[k..];
    assert ahead + (q.entries[k..] + [e]) == kept + [e];
    assert forall i :: 0 <= i < |kept| ==> kept[i] in ahead + q.entries && kept[i] in all;
    forall f | Before(e, f) && AllBefore(ahead + q.entries, f) ensures AllBefore(kept, f) && AllBefore(kept + [e], f) {
      assert forall i :: 0 <= i < |kept| ==> kept[i] in ahead + q.entries;
    }
  }

  lemma {:induction false} PushAllInOrder(ahead: seq<Entry>, q: Queue, now: real, es: seq<Entry>, all: seq<Entry>)
    requires Ordered(ahead + q.entries) && Ordered(es)
    requires forall i :: 0 <= i < |es| ==> AllBefore(ahead + q.entries, es[i]) && es[i] in all
    requires Within(ahead + q.entries, all)
    ensures Ordered(ahead + S.PushAll(q, now, es).entries) && Within(ahead + S.PushAll(q, now, es).entries, all)
    decreases |es|
  {
    if es != [] {
      PushInOrder(ahead, q, now, es[0], all);
      forall i | 0 <= i < |es[1..]| ensures AllBefore(ahead + Q.Push(q, now, es[0]).entries, es[1..][i]) {
        assert Before(es[0], es[1 + i]);
      }
      PushAllInOrder(ahead, Q.Push(q, now, es[0]), now, es[1..], all);
    }
  }

  /** New frames are labelled from the session's next label on, consecutively. */
  lemma NewLabels(c: Config, s: State, e: Event, i: nat)
    requires c.frameBytes > 0 && s.shaper.frameBytes == c.frameBytes && s.shaper.reply == s.replySeq
    requires e.AudioOut? && Enabled(s, e) && Plays(s) && i < |CutNow(c, s, e)|
    ensures var f := CutNow(c, s, e)[i];
            f.reply == Step(c, s, e).replySeq && f.frameSeq + |CutNow(c, s, e)| == Step(c, s, e).shaper.frameSeq + i
    ensures forall x: Entry :: Before(x, NextLabel(s)) ==> Before(x, CutNow(c, s, e)[i])
  {
  }

  lemma AllBeforeNew(c: Config, s: State, e: Event, es: seq<Entry>, h: History)
    requires c.frameBytes > 0 && Kept(c, s, h) && e.AudioOut? && Enabled(s, e) && Plays(s) && Within(es, h.cut)
    ensures forall i :: 0 <= i < |CutNow(c, s, e)| ==> AllBefore(es, CutNow(c, s, e)[i])
  {
    forall i, k | 0 <= i < |CutNow(c, s, e)| && 0 <= k < |es| ensures Before(es[k], CutNow(c, s, e)[i]) {
      NewLabels(c, s, e, i);
      assert es[k] in h.cut;
    }
  }

  lemma CutInOrder(c: Config, s: State, e: Event, h: History)
    requires c.frameBytes > 0 && Kept(c, s, h) && e.AudioOut? && Enabled(s, e) && Plays(s)
    ensures Ordered(CutNow(c, s, e)) && Ordered(h.cut + CutNow(c, s, e))
    ensures AllBefore(h.cut + CutNow(c, s, e), NextLabel(Step(c, s, e)))
  {
    var cut := CutNow(c, s, e);
    AllBeforeNew(c, s, e, h.cut, h);
    forall i | 0 <= i < |cut| ensures Before(cut[i], NextLabel(Step(c, s, e))) {
      NewLabels(c, s, e, i);
    }
    forall i, j | 0 <= i < j < |cut| ensures Before(cut[i], cut[j]) {
      NewLabels(c, s, e, i);
      NewLabels(c, s, e, j);
    }
    forall k | 0 <= k < |h.cut| ensures Before(h.cut[k], NextLabel(Step(c, s, e))) {
      assert Before(h.cut[k], NextLabel(s));
    }
  }

  lemma AudioInOrder(c: Config, s: State, e: Event, h: History)
    requires c.frameBytes > 0 && Kept(c, s, h) && e.AudioOut? && Enabled(s, e) && Plays(s)
    ensures InOrder(Step(c, s, e), Record(c, s, e, h))
  {
    var m := Mint(c, Speaking(s, e.now), e.now);
    var cut := CutNow(c, s, e);
    var all := h.cut + cut;
    CutInOrder(c, s, e, h);
    AllBeforeNew(c, s, e, Ahead(s) + s.shaper.queue.entries, h);
    forall i | 0 <= i < |cut| ensures cut[i] in all { assert all[|h.cut| + i] == cut[i]; }
    PushAllInOrder(Ahead(s), m.shaper.queue, e.now, cut, all);
  }

  lemma TakeInOrder(c: Config, s: State, e: Event, h: History)
    requires c.frameBytes > 0 && Kept(c, s, h) && e.Take? && Enabled(s, e)
    ensures InOrder(Step(c, s, e), h)
  {
    var q := s.shaper.queue.entries;
    var k := TakeMovesTheHead(c, s, e);
    var s' := Step(c, s, e);
    hide Step;
    DropMiddle(Ahead(s), q, k);
    var rest := Ahead(s) + q[k..];
    forall i | 0 <= i < |rest| ensures rest[i] in h.cut {
      assert rest[i] in Ahead(s) + q;
    }
  }

  /** Taking moves the first young entry into the hand: the same frames are on their way, less the expired. */
  lemma TakeMovesTheHead(c: Config, s: State, e: Event) returns (k: nat)
    requires s.shaper.frameBytes > 0 && e.Take? && Enabled(s, e)
    ensures var s' := Step(c, s, e);
      && k <= |s.shaper.queue.entries| && Ahead(s') + s'.shaper.queue.entries == Ahead(s) + s.shaper.queue.entries[k..]
      && s'.replySeq == s.replySeq && s'.shaper.reply == s.shaper.reply && s'.shaper.frameSeq == s.shaper.frameSeq
  {
    k := CT.TakeIsDropAndMove(s, e.now);
    TakeKeepsLabels(s, e.now);
    assert Step(c, s, e) == OnTake(s, e.now);
    hide Step, OnTake, DropExpired;
    var t, rest := OnTake(s, e.now), s.shaper.queue.entries[k..];
    if rest == [] {
      assert Ahead(t) == FramesIn(s.sent) + [] == Ahead(s);
    } else {
      HeadMoves(FramesIn(s.sent), rest);
    }
  }

  lemma TakeKeepsLabels(s: State, now: real)
    requires s.shaper.held == None
    ensures var t := OnTake(s, now);
      && t.sent == s.sent && t.replySeq == s.replySeq && t.shaper.reply == s.shaper.reply
      && t.shaper.frameSeq == s.shaper.frameSeq
  {
  }

  lemma HeadMoves(sent: seq<Entry>, rest: seq<Entry>)
    requires rest != []
    ensures (sent + [rest[0]]) + rest[1..] == (sent + []) + rest
  {
  }

  lemma FlushedInOrder(s: State, h: History)
    requires InOrder(s, h)
    ensures Ordered(Ahead(s)) && Within(Ahead(s), h.cut) && Ahead(s) + [] == Ahead(s)
  {
    DropMiddle(Ahead(s), s.shaper.queue.entries, |s.shaper.queue.entries|);
    assert Ahead(s) + s.shaper.queue.entries[|s.shaper.queue.entries|..] == Ahead(s);
    assert forall i :: 0 <= i < |Ahead(s)| ==> (Ahead(s) + s.shaper.queue.entries)[i] == Ahead(s)[i];
  }

  lemma StepKept(c: Config, s: State, e: Event, h: History)
    requires c.frameBytes > 0 && Kept(c, s, h) && Enabled(s, e)
    ensures Kept(c, Step(c, s, e), Record(c, s, e, h))
  {
    StepFramed(c, s, e, h);
    match e
    case AudioOut(_, _) => if Plays(s) { AudioInOrder(c, s, e, h); }
    case Take(_) => TakeInOrder(c, s, e, h);
    case Send(_) =>
      FramesInAppend(s.sent, DownAudio(s.shaper.held.value.entry));
      assert Ahead(Step(c, s, e)) == Ahead(s);
    case _ => OtherInOrder(c, s, e, h);
  }

  lemma OtherInOrder(c: Config, s: State, e: Event, h: History)
    requires c.frameBytes > 0 && Kept(c, s, h) && Enabled(s, e) && !e.AudioOut? && !e.Take? && !e.Send?
    ensures InOrder(Step(c, s, e), Record(c, s, e, h))
  {
    CT.OtherAtMostFlushes(c, s, e);
    FlushIsNoFrame(s.sent);
    SameOrFlushed(s, Step(c, s, e), h, Record(c, s, e, h));
  }

  lemma FlushIsNoFrame(sent: seq<Message>)
    ensures FramesIn(sent + [FlushDownlink]) == FramesIn(sent)
  {
    FramesInAppend(sent, FlushDownlink);
  }

  /** A step that at most flushes the queue keeps the order. */
  lemma SameOrFlushed(s: State, s': State, h: History, h': History)
    requires InOrder(s, h) && h'.cut == h.cut
    requires FramesIn(s'.sent) == FramesIn(s.sent) && s'.shaper.held == s.shaper.held
    requires s'.shaper.queue.entries == s.shaper.queue.entries || s'.shaper.queue.entries == []
    requires s'.replySeq == s.replySeq && s'.shaper.reply == s.shaper.reply && s'.shaper.frameSeq == s.shaper.frameSeq
    ensures InOrder(s', h')
  {
    FlushedInOrder(s, h);
    assert Ahead(s') == Ahead(s);
  }

  // ---------- whole runs ----------

  function RunHistory(c: Config, s: State, events: seq<Event>, h: History): History
    requires s.shaper.frameBytes > 0 && LegalRun(c, s, events)
    decreases |events|
  {
    if events == [] then h else RunHistory(c, Step(c, s, events[0]), events[1..], Record(c, s, events[0], h))
  }

  lemma {:induction false} RunKept(c: Config, s: State, events: seq<Event>, h: History)
    requires c.frameBytes > 0 && Kept(c, s, h) && LegalRun(c, s, events)
    ensures Kept(c, Run(c, s, events), RunHistory(c, s, events, h))
    decreases |events|
  {
    hide Step, Kept, Record;
    if events != [] {
      StepKept(c, s, events[0], h);
      RunKept(c, Step(c, s, events[0]), events[1..], Record(c, s, events[0], h));
    }
  }

  /** `at` picks out of `b`, left to right, the elements of `a`. */
  ghost predicate Picks(a: seq<Entry>, b: seq<Entry>, at: seq<nat>) {
    && |at| == |a|
    && (forall i :: 0 <= i < |at| ==> at[i] < |b| && b[at[i]] == a[i])
    && (forall i, j :: 0 <= i < j < |at| ==> at[i] < at[j])
  }

  lemma OrderedSubsetIsSubsequence(a: seq<Entry>, b: seq<Entry>) returns (at: seq<nat>)
    requires Ordered(a) && Ordered(b) && Within(a, b)
    ensures Picks(a, b, at)
  {
    at := [];
    for k := 0 to |a|
      invariant |at| == k
      invariant forall i :: 0 <= i < k ==> at[i] < |b| && b[at[i]] == a[i]
    {
      var i: nat :| i < |b| && b[i] == a[k];
      at := at + [i];
    }
    forall i, j | 0 <= i < j < |at| ensures at[i] < at[j] {
      assert Before(a[i], a[j]);
      assert b[at[i]] == a[i] && b[at[j]] == a[j];
    }
  }

  /** Framing and order end to end. Over a whole session the frames handed to the socket are a
      subsequence of the frames cut from the accepted audio, strictly increasing in reply number and
      frame number; since the last reset the frames cut are those of the accepted audio and the buffer is
      its residue, whatever chunks it came in, and together they are that audio. */
  lemma FramesArriveInOrder(c: Config, clock: real, events: seq<Event>) returns (at: seq<nat>)
    requires ValidConfig(c) && LegalRun(c, Init(c, clock), events)
    ensures var s := Run(c, Init(c, clock), events);
            var h := RunHistory(c, Init(c, clock), events, History([], [], 0));
            && Ordered(FramesIn(s.sent))
            && Picks(FramesIn(s.sent), h.cut, at)
            && h.base <= |h.cut|
            && Payloads(h.cut[h.base..]) == Frames(h.accepted, c.frameBytes)
            && s.shaper.buf == Residue(h.accepted, c.frameBytes) && |s.shaper.buf| < c.frameBytes
            && Concat(Payloads(h.cut[h.base..])) + s.shaper.buf == h.accepted
  {
    var s := Run(c, Init(c, clock), events);
    var h := RunHistory(c, Init(c, clock), events, History([], [], 0));
    RunKept(c, Init(c, clock), events, History([], [], 0));
    FramesAreTheStream(h.accepted, c.frameBytes);
    var all, sent := Ahead(s) + s.shaper.queue.entries, FramesIn(s.sent);
    forall i | 0 <= i < |sent| ensures sent[i] == all[i] {}
    assert Within(sent, h.cut);
    at := OrderedSubsetIsSubsequence(sent, h.cut);
  }
}
