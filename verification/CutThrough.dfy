/** A barge-in cuts through: what of the interrupted replies can still reach the socket. */
module CutThrough {
  import opened Outcomes
  import opened AudioQueue
  import Q = AudioQueue
  import S = Shaper
  import opened Session

  // ---------- facts of every reachable state ----------

  ghost predicate Basic(c: Config, s: State) {
    && s.shaper.frameBytes == c.frameBytes && s.shaper.reply == s.replySeq
    && s.lastDownMono <= s.clock
    && (s.downSpeaking ==> s.lastDownMono <= s.lastDownTs)
  }

  lemma StepBasic(c: Config, s: State, e: Event)
    requires c.frameBytes > 0 && Basic(c, s) && Enabled(s, e)
    ensures Basic(c, Step(c, s, e)) && Step(c, s, e).clock >= s.clock
  {
    match e
    case AudioOut(now, pcm) => assert Step(c, s, e) == OnAudioOut(c, s, now, pcm);
    case CheckSpeakingOver(now, sb, ab) => assert Step(c, s, e) == OnCheckSpeakingOver(c, s, now, sb, ab);
    case Take(now) => assert Step(c, s, e) == OnTake(s, now);
    case _ =>
  }

  lemma {:induction false} RunBasic(c: Config, s: State, events: seq<Event>)
    requires c.frameBytes > 0 && Basic(c, s) && LegalRun(c, s, events)
    ensures Basic(c, Run(c, s, events)) && Run(c, s, events).clock >= s.clock
    decreases |events|
  {
    hide Step, Basic;
    if events != [] {
      StepBasic(c, s, events[0]);
      RunBasic(c, Step(c, s, events[0]), events[1..]);
    }
  }

  lemma {:induction false} ReachableBasic(c: Config, s: State)
    requires Reachable(c, s)
    ensures c.frameBytes > 0 && Basic(c, s)
  {
    hide Step, Run, LegalRun;
    var clock, events :| clock >= 0.0 && LegalRun(c, Init(c, clock), events) && Run(c, Init(c, clock), events) == s;
    RunBasic(c, Init(c, clock), events);
  }

  // ---------- counting the frames of some replies ----------

  /** The replies from `lo` to `hi`. */
  datatype Span = Span(lo: nat, hi: nat)

  predicate Within(span: Span, e: Entry) {
    span.lo <= e.reply <= span.hi
  }

  function One(b: bool): nat {
    if b then 1 else 0
  }

  /** Frames on the wire ... */
  function FramesOf(sent: seq<Message>, span: Span): nat {
    if sent == [] then 0
    else One(sent[0].DownAudio? && Within(span, sent[0].frame)) + FramesOf(sent[1..], span)
  }

  lemma {:induction false} FramesOfAppend(sent: seq<Message>, m: Message, span: Span)
    ensures FramesOf(sent + [m], span) == FramesOf(sent, span) + One(m.DownAudio? && Within(span, m.frame))
  {
    if sent == [] {
      assert sent + [m] == [m] && [m][1..] == [];
    } else {
      FramesOfAppend(sent[1..], m, span);
      assert (sent + [m])[1..] == sent[1..] + [m];
    }
  }

  /** ... in the hand of the pacing loop ... */
  function InHand(s: State, span: Span): nat {
    One(s.shaper.held.Some? && Within(span, s.shaper.held.value.entry))
  }

  /** ... and in a queue. */
  function CountOf(es: seq<Entry>, span: Span): nat {
    if es == [] then 0 else CountOf(es[..|es| - 1], span) + One(Within(span, es[|es| - 1]))
  }

  lemma CountOfAppend(es: seq<Entry>, e: Entry, span: Span)
    ensures CountOf(es + [e], span) == CountOf(es, span) + One(Within(span, e))
  {
    assert (es + [e])[..|es|] == es;
  }

  lemma {:induction false} CountOfConcat(a: seq<Entry>, b: seq<Entry>, span: Span)
    ensures CountOf(a + b, span) == CountOf(a, span) + CountOf(b, span)
  {
    if b == [] {
      assert a + b == a;
    } else {
      CountOfConcat(a, b[..|b| - 1], span);
      assert (a + b)[..|a + b| - 1] == a + b[..|b| - 1];
    }
  }

  lemma CountOfSuffix(es: seq<Entry>, k: nat, span: Span)
    requires k <= |es|
    ensures CountOf(es[k..], span) <= CountOf(es, span)
  {
    CountOfConcat(es[..k], es[k..], span);
    assert es[..k] + es[k..] == es;
  }

  ghost predicate NoneWithin(es: seq<Entry>, span: Span) {
    forall i :: 0 <= i < |es| ==> !Within(span, es[i])
  }

  lemma {:induction false} NoneCountsNothing(es: seq<Entry>, span: Span)
    requires NoneWithin(es, span)
    ensures CountOf(es, span) == 0
  {
    if es != [] { NoneCountsNothing(es[..|es| - 1], span); }
  }

  // ---------- the queue holds nothing but what it held and what is pushed ----------

  lemma PushCounts(q: Queue, now: real, e: Entry, span: Span)
    ensures CountOf(Q.Push(q, now, e).entries, span) <= CountOf(q.entries, span) + One(Within(span, e))
  {
    var k := PushIsDropAndAppend(q, now, e);
    hide Q.Push, CountOf;
    CountOfSuffix(q.entries, k, span);
    CountOfAppend(q.entries[k..], e, span);
  }

  lemma {:induction false} PushAllCounts(q: Queue, now: real, es: seq<Entry>, span: Span)
    ensures CountOf(S.PushAll(q, now, es).entries, span) <= CountOf(q.entries, span) + CountOf(es, span)
    decreases |es|
  {
    hide Q.Push;
    if es != [] {
      PushCounts(q, now, es[0], span);
      PushAllCounts(Q.Push(q, now, es[0]), now, es[1..], span);
      assert [] + [es[0]] == [es[0]] && es == [es[0]] + es[1..];
      CountOfAppend([], es[0], span);
      CountOfConcat([es[0]], es[1..], span);
    }
  }

  /** Taking moves the head of what is left of the queue into the hand. */
  lemma TakeIsDropAndMove(s: State, now: real) returns (k: nat)
    requires s.shaper.held == None
    ensures k <= |s.shaper.queue.entries|
    ensures var t, rest := OnTake(s, now).shaper, s.shaper.queue.entries[k..];
      && (rest == [] ==> t.held == None && t.queue.entries == [])
      && (rest != [] ==> t.held.Some? && t.held.value.entry == rest[0] && t.queue.entries == rest[1..])
    ensures DropExpired(s.shaper.queue, now).entries == s.shaper.queue.entries[k..]
  {
    HeadIsWithin(s.shaper.queue.entries, now, s.shaper.queue.maxAgeMs);
    k := ExpiredHead(s.shaper.queue.entries, now, s.shaper.queue.maxAgeMs);
  }

  lemma TakeCounts(s: State, now: real, span: Span)
    requires s.shaper.held == None
    ensures var t := OnTake(s, now);
      InHand(t, span) + CountOf(t.shaper.queue.entries, span) <= CountOf(s.shaper.queue.entries, span)
  {
    var k := TakeIsDropAndMove(s, now);
    hide OnTake;
    var rest := s.shaper.queue.entries[k..];
    CountOfSuffix(s.shaper.queue.entries, k, span);
    if rest != [] {
      assert rest == [rest[0]] + rest[1..] && [] + [rest[0]] == [rest[0]];
      CountOfAppend([], rest[0], span);
      CountOfConcat([rest[0]], rest[1..], span);
    }
  }

  // ---------- the account of a reply ----------

  /** Since the messages before `base`, at most `budget` frames of the span were sent, are in hand or are
      queued. */
  ghost predicate Budgeted(s: State, span: Span, base: nat, budget: nat) {
    && base <= |s.sent|
    && FramesOf(s.sent[base..], span) + InHand(s, span) + CountOf(s.shaper.queue.entries, span) <= budget
  }

  lemma SendKeepsBudget(s: State, now: real, span: Span, base: nat, budget: nat)
    requires s.shaper.held.Some? && Budgeted(s, span, base, budget)
    ensures Budgeted(OnSend(s, now), span, base, budget)
  {
    var m := DownAudio(s.shaper.held.value.entry);
    FramesOfAppend(s.sent[base..], m, span);
    assert (s.sent + [m])[base..] == s.sent[base..] + [m];
  }

  /** At most a flush: nothing is sent or queued. */
  lemma FlushKeepsBudget(s: State, s': State, span: Span, base: nat, budget: nat)
    requires Budgeted(s, span, base, budget) && (s'.sent == s.sent || s'.sent == s.sent + [FlushDownlink])
    requires s'.shaper.held == s.shaper.held
    requires s'.shaper.queue.entries == s.shaper.queue.entries || s'.shaper.queue.entries == []
    ensures Budgeted(s', span, base, budget)
  {
    FramesOfAppend(s.sent[base..], FlushDownlink, span);
    assert (s.sent + [FlushDownlink])[base..] == s.sent[base..] + [FlushDownlink];
  }

  /** Audio adds at most the frames it is cut into. */
  lemma AudioKeepsBudget(c: Config, s: State, e: Event, span: Span, base: nat, budget: nat)
    requires s.shaper.frameBytes > 0 && e.AudioOut? && Enabled(s, e) && Budgeted(s, span, base, budget)
    ensures Budgeted(Step(c, s, e), span, base, budget + CountOf(CutNow(c, s, e), span))
  {
    var t := AudioPushes(c, s, e);
    hide Step, CutNow;
    PushAllCounts(s.shaper.queue, e.now, CutNow(c, s, e), span);
  }

  /** What audio does to everything on its way. */
  lemma AudioPushes(c: Config, s: State, e: Event) returns (t: State)
    requires s.shaper.frameBytes > 0 && e.AudioOut? && Enabled(s, e)
    ensures t == Step(c, s, e) && t.sent == s.sent && t.shaper.held == s.shaper.held
    ensures t.shaper.queue.entries == S.PushAll(s.shaper.queue, e.now, CutNow(c, s, e)).entries
  {
    t := OnAudioOut(c, s, e.now, e.pcm);
  }

  lemma OtherAtMostFlushes(c: Config, s: State, e: Event)
    requires s.shaper.frameBytes > 0 && Enabled(s, e) && !e.AudioOut? && !e.Take? && !e.Send?
    ensures var s' := Step(c, s, e);
            && (s'.sent == s.sent || s'.sent == s.sent + [FlushDownlink]) && s'.shaper.held == s.shaper.held
            && (s'.shaper.queue.entries == s.shaper.queue.entries || s'.shaper.queue.entries == [])
            && s'.replySeq == s.replySeq && s'.shaper.reply == s.shaper.reply && s'.shaper.frameSeq == s.shaper.frameSeq
            && s'.lastDownMono == s.lastDownMono && s'.shaper.queue.maxAgeMs == s.shaper.queue.maxAgeMs
            && CutNow(c, s, e) == []
  {
    match e
    case UpAudio(now, loud) => assert Step(c, s, e) == OnUpAudio(c, s, now, loud);
    case CheckSpeakingOver(now, sb, ab) => assert Step(c, s, e) == OnCheckSpeakingOver(c, s, now, sb, ab);
    case Text(sm, am) => assert Step(c, s, e) == OnText(s, sm, am);
    case CloudSpeechBegins(now) => assert Step(c, s, e) == OnCloudSpeechBegins(s, now);
    case CloudSpeechEnds => assert Step(c, s, e) == OnCloudSpeechEnds(s);
    case PeerEnter(now) => assert Step(c, s, e) == OnPeerEnter(s, now);
  }

  /** Every step adds at most what it cuts. */
  lemma StepKeepsBudget(c: Config, s: State, e: Event, span: Span, base: nat, budget: nat)
    requires s.shaper.frameBytes > 0 && Enabled(s, e) && Budgeted(s, span, base, budget)
    ensures Budgeted(Step(c, s, e), span, base, budget + CountOf(CutNow(c, s, e), span))
  {
    match e
    case AudioOut(_, _) => AudioKeepsBudget(c, s, e, span, base, budget);
    case Take(now) => TakeCounts(s, now, span);
    case Send(now) => SendKeepsBudget(s, now, span, base, budget);
    case _ =>
      OtherAtMostFlushes(c, s, e);
      hide Step, CutNow;
      FlushKeepsBudget(s, Step(c, s, e), span, base, budget);
  }

  // ---------- replies that get nothing more ----------

  /** Replies up to `hi` are over, or audio is being discarded. */
  ghost predicate Barred(c: Config, s: State, hi: nat) {
    && hi <= s.replySeq
    && (hi == s.replySeq && hi != 0 ==> s.bargeIn || s.clock - s.lastDownMono > c.newReplyGapS)
  }

  /** No step but a peer's re-entry lifts the bar, and none cuts a frame of a barred reply. It needs the
      window to stay open longer than the gap that starts a new reply. */
  lemma StepKeepsBar(c: Config, s: State, e: Event, hi: nat)
    requires c.frameBytes > 0 && c.newReplyGapS <= 0.6
    requires Basic(c, s) && Enabled(s, e) && Barred(c, s, hi) && !e.PeerEnter?
    ensures Barred(c, Step(c, s, e), hi)
  {
    match e
    case AudioOut(now, pcm) => assert Step(c, s, e) == OnAudioOut(c, s, now, pcm);
    case UpAudio(now, loud) => assert Step(c, s, e) == OnUpAudio(c, s, now, loud);
    case CheckSpeakingOver(now, sb, ab) => assert Step(c, s, e) == OnCheckSpeakingOver(c, s, now, sb, ab);
    case _ =>
  }

  lemma BarredCutsNothing(c: Config, s: State, e: Event, span: Span)
    requires c.frameBytes > 0 && Basic(c, s) && Enabled(s, e) && Barred(c, s, span.hi)
    ensures CountOf(CutNow(c, s, e), span) == 0
  {
    if e.AudioOut? && Plays(s) {
      var m := Mint(c, Speaking(s, e.now), e.now);
      assert m.replySeq > span.hi;
      assert forall i :: 0 <= i < |CutNow(c, s, e)| ==> CutNow(c, s, e)[i].reply == m.replySeq;
    }
    NoneCountsNothing(CutNow(c, s, e), span);
  }

  predicate NobodyEnters(events: seq<Event>) {
    forall i :: 0 <= i < |events| ==> !events[i].PeerEnter?
  }

  lemma NobodyEntersLater(events: seq<Event>)
    requires events != [] && NobodyEnters(events)
    ensures !events[0].PeerEnter? && NobodyEnters(events[1..])
  {
  }

  lemma {:induction false} BarredRunKeepsBudget(c: Config, s: State, events: seq<Event>, span: Span, base: nat,
        budget: nat)
    requires c.frameBytes > 0 && c.newReplyGapS <= 0.6
    requires Basic(c, s) && LegalRun(c, s, events) && NobodyEnters(events)
    requires Barred(c, s, span.hi) && Budgeted(s, span, base, budget)
    ensures Budgeted(Run(c, s, events), span, base, budget)
    decreases |events|
  {
    hide Step, CutNow, Budgeted, Barred, Basic, NobodyEnters;
    if events != [] {
      NobodyEntersLater(events);
      StepBasic(c, s, events[0]);
      StepKeepsBar(c, s, events[0], span.hi);
      BarredCutsNothing(c, s, events[0], span);
      StepKeepsBudget(c, s, events[0], span, base, budget);
      BarredRunKeepsBudget(c, Step(c, s, events[0]), events[1..], span, base, budget);
    }
  }

  // ---------- the wire only grows ----------

  lemma StepSends(c: Config, s: State, e: Event)
    requires s.shaper.frameBytes > 0 && Enabled(s, e)
    ensures s.sent <= Step(c, s, e).sent
  {
    match e
    case AudioOut(now, pcm) => var t := AudioPushes(c, s, e);
    case Take(now) => assert Step(c, s, e) == OnTake(s, now);
    case Send(now) => assert Step(c, s, e) == OnSend(s, now);
    case _ => OtherAtMostFlushes(c, s, e); hide Step;
  }

  lemma {:induction false} SentGrows(c: Config, s: State, events: seq<Event>)
    requires s.shaper.frameBytes > 0 && LegalRun(c, s, events)
    ensures s.sent <= Run(c, s, events).sent
    decreases |events|
  {
    hide Step;
    if events != [] {
      StepSends(c, s, events[0]);
      SentGrows(c, Step(c, s, events[0]), events[1..]);
    }
  }

  // ---------- the local path ----------

  /** The step with which the local-energy path opens a window. */
  predicate OpensWindow(c: Config, s: State, e: Event)
    requires s.shaper.frameBytes > 0
  {
    e.UpAudio? && Enabled(s, e) && !s.bargeIn && Step(c, s, e).bargeIn
  }

  lemma OpeningEmptiesTheQueue(c: Config, s: State, e: Event)
    requires s.shaper.frameBytes > 0 && OpensWindow(c, s, e)
    ensures var t := Step(c, s, e);
      && t.sent == s.sent + [FlushDownlink] && t.shaper.held == s.shaper.held && t.shaper.queue.entries == []
      && t.bargeIn && t.replySeq == s.replySeq
  {
  }

  /** An empty queue, and everything sent before: only the hand counts. */
  lemma OnlyTheHand(s: State, t: State, span: Span)
    requires t.sent == s.sent + [FlushDownlink] && t.shaper.held == s.shaper.held && t.shaper.queue.entries == []
    ensures Budgeted(t, span, |s.sent|, InHand(s, span))
  {
    assert t.sent[|s.sent|..] == [FlushDownlink] && [FlushDownlink][1..] == [];
  }

  lemma BudgetCounts(s: State, span: Span, base: nat, budget: nat)
    requires Budgeted(s, span, base, budget)
    ensures base <= |s.sent| && FramesOf(s.sent[base..], span) <= budget
  {
  }

  /** Interrupt cut-through. Once the local path opens a window, and until a peer re-enters, of the replies
      from any one up to the interrupted one no frame is sent but the one `_run` already had in hand, if it
      had one: under every interleaving of audio, text, cloud events, window checks, pops and sends. With
      lo = replySeq this is about the interrupted reply alone, with lo = 0 about all replies so far. */
  lemma {:induction false} InterruptCutsThrough(c: Config, s: State, e: Event, later: seq<Event>, lo: nat)
    requires Reachable(c, s) && c.newReplyGapS <= 0.6 && s.shaper.frameBytes > 0
    requires OpensWindow(c, s, e) && LegalRun(c, Step(c, s, e), later) && NobodyEnters(later)
    ensures var end := Run(c, Step(c, s, e), later);
            && |s.sent| <= |end.sent|
            && FramesOf(end.sent[|s.sent|..], Span(lo, s.replySeq)) <= InHand(s, Span(lo, s.replySeq))
  {
    ReachableBasic(c, s);
    StepBasic(c, s, e);
    OpeningEmptiesTheQueue(c, s, e);
    hide Step, Basic, OpensWindow, Reachable, Run, LegalRun, FramesOf;
    var t, span := Step(c, s, e), Span(lo, s.replySeq);
    OnlyTheHand(s, t, span);
    BarredRunKeepsBudget(c, t, later, span, |s.sent|, InHand(s, span));
    BudgetCounts(Run(c, t, later), span, |s.sent|, InHand(s, span));
  }
}
