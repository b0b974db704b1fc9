/** The cloud path's interrupt: it empties the queue before its two awaits and opens the window after them,
    without emptying the queue again (backend/rtc_bridge/session.py:416-440). */
module CloudCut {
  import opened Outcomes
  import opened AudioQueue
  import Q = AudioQueue
  import S = Shaper
  import opened Session
  import opened CutThrough
  import SessionOrder

  // ---------- how much gets through ----------

  /** How many frames of the span are cut during a run. */
  function CutDuring(c: Config, s: State, events: seq<Event>, span: Span): nat
    requires s.shaper.frameBytes > 0 && LegalRun(c, s, events)
    decreases |events|
  {
    if events == [] then 0
    else CountOf(CutNow(c, s, events[0]), span) + CutDuring(c, Step(c, s, events[0]), events[1..], span)
  }

  lemma {:induction false} RunKeepsBudget(c: Config, s: State, events: seq<Event>, span: Span, base: nat, budget: nat)
    requires s.shaper.frameBytes > 0 && LegalRun(c, s, events) && Budgeted(s, span, base, budget)
    ensures Budgeted(Run(c, s, events), span, base, budget + CutDuring(c, s, events, span))
    decreases |events|
  {
    hide Step, CutNow, Budgeted, CountOf;
    if events != [] {
      StepKeepsBudget(c, s, events[0], span, base, budget);
      var cut := CountOf(CutNow(c, s, events[0]), span);
      RunKeepsBudget(c, Step(c, s, events[0]), events[1..], span, base, budget + cut);
    }
  }

  /** The cloud handler from its start, through what interleaves with its awaits, to its end. */
  ghost predicate CloudInterrupt(c: Config, s: State, now: real, mid: seq<Event>) {
    && s.shaper.frameBytes > 0 && s.downSpeaking && now >= s.clock
    && LegalRun(c, OnCloudSpeechBegins(s, now), mid)
    && Run(c, OnCloudSpeechBegins(s, now), mid).cloudPending > 0
  }

  ghost function WindowOpen(c: Config, s: State, now: real, mid: seq<Event>): State
    requires CloudInterrupt(c, s, now, mid)
  {
    OnCloudSpeechEnds(Run(c, OnCloudSpeechBegins(s, now), mid))
  }

  lemma {:induction false} WindowIsOpen(c: Config, s: State, now: real, mid: seq<Event>)
    requires c.frameBytes > 0 && Basic(c, s) && CloudInterrupt(c, s, now, mid)
    ensures var w := WindowOpen(c, s, now, mid);
      && Basic(c, w) && w.bargeIn && w.shaper.frameBytes > 0
      && w == Step(c, Run(c, OnCloudSpeechBegins(s, now), mid), CloudSpeechEnds)
  {
    var t := OnCloudSpeechBegins(s, now);
    assert Basic(c, t);
    hide Run, LegalRun, Basic;
    RunBasic(c, t, mid);
    StepBasic(c, Run(c, t, mid), CloudSpeechEnds);
  }

  lemma BeginningEmptiesTheQueue(s: State, now: real)
    requires s.downSpeaking
    ensures var t := OnCloudSpeechBegins(s, now);
      && t.sent == s.sent + [FlushDownlink] && t.shaper.held == s.shaper.held && t.shaper.queue.entries == []
      && t.shaper.frameBytes == s.shaper.frameBytes
  {
  }

  lemma OpeningKeepsBudget(s: State, span: Span, base: nat, budget: nat)
    requires s.cloudPending > 0 && Budgeted(s, span, base, budget)
    ensures Budgeted(OnCloudSpeechEnds(s), span, base, budget)
  {
  }

  /** The account when the window opens: the hand, and what was cut since the handler began. */
  lemma {:induction false} AccountAtWindow(c: Config, s: State, now: real, mid: seq<Event>, span: Span)
    requires CloudInterrupt(c, s, now, mid)
    ensures Budgeted(WindowOpen(c, s, now, mid), span, |s.sent|,
                     InHand(s, span) + CutDuring(c, OnCloudSpeechBegins(s, now), mid, span))
  {
    hide *;
    var t := OnCloudSpeechBegins(s, now);
    InterruptParts(c, s, now, mid);
    BeginningEmptiesTheQueue(s, now);
    AccountAfter(c, s, t, mid, span);
    OpeningKeepsBudget(Run(c, t, mid), span, |s.sent|, InHand(s, span) + CutDuring(c, t, mid, span));
  }

  lemma InterruptParts(c: Config, s: State, now: real, mid: seq<Event>)
    requires CloudInterrupt(c, s, now, mid)
    ensures var t := OnCloudSpeechBegins(s, now);
      && s.downSpeaking && t.shaper.frameBytes > 0 && LegalRun(c, t, mid) && Run(c, t, mid).cloudPending > 0
      && WindowOpen(c, s, now, mid) == OnCloudSpeechEnds(Run(c, t, mid))
  {
    hide Run, LegalRun;
  }

  lemma AccountAfter(c: Config, s: State, t: State, mid: seq<Event>, span: Span)
    requires t.sent == s.sent + [FlushDownlink] && t.shaper.held == s.shaper.held && t.shaper.queue.entries == []
    requires t.shaper.frameBytes > 0 && LegalRun(c, t, mid)
    ensures Budgeted(Run(c, t, mid), span, |s.sent|, InHand(s, span) + CutDuring(c, t, mid, span))
  {
    hide *;
    OnlyTheHand(s, t, span);
    RunKeepsBudget(c, t, mid, span, |s.sent|, InHand(s, span));
  }

  /** From an open window on, an account is never exceeded. */
  lemma {:induction false} AccountIsFinal(c: Config, w: State, later: seq<Event>, span: Span, base: nat, budget: nat)
    requires c.frameBytes > 0 && c.newReplyGapS <= 0.6 && Basic(c, w) && w.bargeIn && span.hi <= w.replySeq
    requires w.shaper.frameBytes > 0 && LegalRun(c, w, later) && NobodyEnters(later) && Budgeted(w, span, base, budget)
    ensures base <= |Run(c, w, later).sent| && FramesOf(Run(c, w, later).sent[base..], span) <= budget
  {
    assert Barred(c, w, span.hi);
    hide Run, LegalRun, Basic, Budgeted, Barred, FramesOf;
    BarredRunKeepsBudget(c, w, later, span, base, budget);
    BudgetCounts(Run(c, w, later), span, base, budget);
  }

  /** What a cloud interrupt lets through. Until a peer re-enters, of any replies begun before the window
      opens no more frames are sent than the one in hand and those cut between the handler's two halves. */
  lemma {:induction false} CloudInterruptBound(c: Config, s: State, now: real, mid: seq<Event>,
        later: seq<Event>, span: Span)
    requires Reachable(c, s) && c.newReplyGapS <= 0.6 && CloudInterrupt(c, s, now, mid)
    requires WindowOpen(c, s, now, mid).shaper.frameBytes > 0 && LegalRun(c, WindowOpen(c, s, now, mid), later)
    requires NobodyEnters(later) && span.hi <= WindowOpen(c, s, now, mid).replySeq
    ensures var end := Run(c, WindowOpen(c, s, now, mid), later);
      && |s.sent| <= |end.sent|
      && FramesOf(end.sent[|s.sent|..], span)
         <= InHand(s, span) + CutDuring(c, OnCloudSpeechBegins(s, now), mid, span)
  {
    ReachableBasic(c, s);
    WindowIsOpen(c, s, now, mid);
    AccountAtWindow(c, s, now, mid, span);
    hide InHand, Run, LegalRun, Reachable, Basic, Budgeted, FramesOf;
    hide OnCloudSpeechBegins, WindowOpen, CutDuring, NobodyEnters;
    AccountIsFinal(c, WindowOpen(c, s, now, mid), later, span, |s.sent|,
                   InHand(s, span) + CutDuring(c, OnCloudSpeechBegins(s, now), mid, span));
  }

  // ---------- exactly when nothing more gets through ----------

  /** When the pacing loop will look at the queue next, at the earliest. */
  function FreeAt(s: State): real {
    if s.shaper.held.Some? && s.shaper.held.value.wake > s.clock then s.shaper.held.value.wake else s.clock
  }

  /** The queue holds a frame that will then still be young. */
  predicate YoungAhead(s: State) {
    DropExpired(s.shaper.queue, FreeAt(s)).entries != []
  }

  /** All replies begun so far. */
  function Begun(s: State): Span {
    Span(0, s.replySeq)
  }

  ghost function SentAfter(c: Config, w: State, later: seq<Event>): (sent: seq<Message>)
    requires w.shaper.frameBytes > 0 && LegalRun(c, w, later)
  {
    SentGrows(c, w, later);
    Run(c, w, later).sent[|w.sent|..]
  }

  /** From an open window on, no frame of the replies begun so far is sent but the one in hand. */
  ghost predicate CutsOff(c: Config, w: State)
    requires w.shaper.frameBytes > 0
  {
    forall later | LegalRun(c, w, later) && NobodyEnters(later) ::
      FramesOf(SentAfter(c, w, later), Begun(w)) <= InHand(w, Begun(w))
  }

  /** Every queued frame of the span will have expired at `time`. */
  ghost predicate AllExpire(es: seq<Entry>, span: Span, time: real, maxAgeMs: nat) {
    forall i :: 0 <= i < |es| ==> Within(span, es[i]) ==> Expired(es[i], time, maxAgeMs)
  }

  lemma {:induction false} AllDroppedAreExpired(es: seq<Entry>, time: real, maxAgeMs: nat, i: nat)
    requires i < ExpiredHead(es, time, maxAgeMs) && i < |es|
    ensures Expired(es[i], time, maxAgeMs)
  {
    if i > 0 { AllDroppedAreExpired(es[1..], time, maxAgeMs, i - 1); }
  }

  lemma {:induction false} FirstLeftIsYoung(es: seq<Entry>, now: real, maxAgeMs: nat)
    requires ExpiredHead(es, now, maxAgeMs) < |es|
    ensures !Expired(es[ExpiredHead(es, now, maxAgeMs)], now, maxAgeMs)
  {
    if Expired(es[0], now, maxAgeMs) { FirstLeftIsYoung(es[1..], now, maxAgeMs); }
  }

  lemma ExpiredStays(e: Entry, time: real, now: real, maxAgeMs: nat)
    requires Expired(e, time, maxAgeMs) && time <= now
    ensures Expired(e, now, maxAgeMs)
  {
  }

  lemma PushExpires(q: Queue, now: real, e: Entry, span: Span, time: real)
    requires AllExpire(q.entries, span, time, q.maxAgeMs) && !Within(span, e)
    ensures AllExpire(Q.Push(q, now, e).entries, span, time, q.maxAgeMs) && Q.Push(q, now, e).maxAgeMs == q.maxAgeMs
  {
    var k := PushIsDropAndAppend(q, now, e);
    assert Q.Push(q, now, e).maxAgeMs == q.maxAgeMs;
    hide Q.Push, Expired, Within;
    assert forall i :: 0 <= i < |q.entries[k..]| ==> q.entries[k..][i] == q.entries[k + i];
  }

  lemma {:induction false} PushAllExpires(q: Queue, now: real, es: seq<Entry>, span: Span, time: real)
    requires AllExpire(q.entries, span, time, q.maxAgeMs) && NoneWithin(es, span)
    ensures AllExpire(S.PushAll(q, now, es).entries, span, time, q.maxAgeMs)
    ensures S.PushAll(q, now, es).maxAgeMs == q.maxAgeMs
    decreases |es|
  {
    hide Q.Push, Expired, Within, AllExpire;
    if es != [] {
      PushExpires(q, now, es[0], span, time);
      assert forall i :: 0 <= i < |es[1..]| ==> es[1..][i] == es[i + 1];
      PushAllExpires(Q.Push(q, now, es[0]), now, es[1..], span, time);
    }
  }

  /** Since the window `w`: only its hand was sent, what is queued of the span comes too late, and the loop
      does not look before it is free. */
  ghost predicate Late(w: State, s: State, span: Span) {
    && |w.sent| <= |s.sent| && s.clock >= w.clock && s.shaper.queue.maxAgeMs == w.shaper.queue.maxAgeMs
    && FramesOf(s.sent[|w.sent|..], span) + InHand(s, span) <= InHand(w, span)
    && AllExpire(s.shaper.queue.entries, span, FreeAt(w), w.shaper.queue.maxAgeMs)
    && (s.clock >= FreeAt(w) || (s.shaper.held == w.shaper.held && w.shaper.held.Some?))
  }

  lemma BarredCutsNoneOf(c: Config, s: State, e: Event, span: Span)
    requires c.frameBytes > 0 && Basic(c, s) && Enabled(s, e) && Barred(c, s, span.hi)
    ensures NoneWithin(CutNow(c, s, e), span)
  {
    if e.AudioOut? && Plays(s) {
      var m := Mint(c, Speaking(s, e.now), e.now);
      assert m.replySeq > span.hi;
      assert forall i :: 0 <= i < |CutNow(c, s, e)| ==> CutNow(c, s, e)[i].reply == m.replySeq;
    }
  }

  lemma AudioStaysLate(c: Config, w: State, s: State, e: Event, span: Span)
    requires c.frameBytes > 0 && Basic(c, s) && Enabled(s, e) && e.AudioOut?
    requires Barred(c, s, span.hi) && Late(w, s, span)
    ensures Late(w, Step(c, s, e), span)
  {
    var t := AudioPushes(c, s, e);
    AudioKeepsAge(c, s, e);
    BarredCutsNoneOf(c, s, e, span);
    hide Step, CutNow, Basic, Barred, FramesOf, AllExpire, NoneWithin;
    PushAllExpires(s.shaper.queue, e.now, CutNow(c, s, e), span, FreeAt(w));
  }

  lemma AudioKeepsAge(c: Config, s: State, e: Event)
    requires s.shaper.frameBytes > 0 && e.AudioOut? && Enabled(s, e)
    ensures Step(c, s, e).shaper.queue.maxAgeMs == s.shaper.queue.maxAgeMs
  {
    if Plays(s) {
      var m := Mint(c, Speaking(s, e.now), e.now);
      PushAllKeepsAge(m.shaper.queue, e.now, CutNow(c, s, e));
    }
  }

  lemma {:induction false} PushAllKeepsAge(q: Queue, now: real, es: seq<Entry>)
    ensures S.PushAll(q, now, es).maxAgeMs == q.maxAgeMs
    decreases |es|
  {
    if es != [] { PushAllKeepsAge(Q.Push(q, now, es[0]), now, es[1..]); }
  }

  lemma TakeStaysLate(w: State, s: State, now: real, span: Span)
    requires s.shaper.held == None && now >= s.clock && Late(w, s, span)
    ensures Late(w, OnTake(s, now), span)
  {
    var es, age := s.shaper.queue.entries, s.shaper.queue.maxAgeMs;
    var k := TakeIsDropAndMove(s, now);
    TakeKeepsRest(s, now);
    hide OnTake, FramesOf, Expired;
    HeadIsWithin(es, now, age);
    assert es[ExpiredHead(es, now, age)..] == es[k..];
    if k < |es| {
      FirstLeftIsYoung(es, now, age);
      if Within(span, es[k]) { ExpiredStays(es[k], FreeAt(w), now, age); }
    }
    assert forall i :: 0 <= i < |es[k..]| ==> es[k..][i] == es[k + i];
  }

  lemma TakeKeepsRest(s: State, now: real)
    requires s.shaper.held == None
    ensures var t := OnTake(s, now);
      t.sent == s.sent && t.clock == now && t.shaper.queue.maxAgeMs == s.shaper.queue.maxAgeMs
  {
  }

  lemma SendStaysLate(w: State, s: State, now: real, span: Span)
    requires s.shaper.held.Some? && now >= s.clock && now >= s.shaper.held.value.wake && Late(w, s, span)
    ensures Late(w, OnSend(s, now), span)
  {
    var m := DownAudio(s.shaper.held.value.entry);
    FramesOfAppend(s.sent[|w.sent|..], m, span);
    assert (s.sent + [m])[|w.sent|..] == s.sent[|w.sent|..] + [m];
  }

  lemma FlushStaysLate(w: State, s: State, t: State, span: Span)
    requires Late(w, s, span) && (t.sent == s.sent || t.sent == s.sent + [FlushDownlink]) && t.clock >= s.clock
    requires t.shaper.held == s.shaper.held && t.shaper.queue.maxAgeMs == s.shaper.queue.maxAgeMs
    requires t.shaper.queue.entries == s.shaper.queue.entries || t.shaper.queue.entries == []
    ensures Late(w, t, span)
  {
    FramesOfAppend(s.sent[|w.sent|..], FlushDownlink, span);
    assert (s.sent + [FlushDownlink])[|w.sent|..] == s.sent[|w.sent|..] + [FlushDownlink];
  }

  lemma StepStaysLate(c: Config, w: State, s: State, e: Event, span: Span)
    requires c.frameBytes > 0 && Basic(c, s) && Enabled(s, e) && Barred(c, s, span.hi) && Late(w, s, span)
    ensures Late(w, Step(c, s, e), span)
  {
    hide Late, Barred;
    match e
    case AudioOut(_, _) => AudioStaysLate(c, w, s, e, span);
    case Take(now) => TakeStaysLate(w, s, now, span);
    case Send(now) => SendStaysLate(w, s, now, span);
    case _ =>
      OtherAtMostFlushes(c, s, e);
      hide Step;
      FlushStaysLate(w, s, Step(c, s, e), span);
  }

  lemma {:induction false} RunStaysLate(c: Config, w: State, s: State, events: seq<Event>, span: Span)
    requires c.frameBytes > 0 && c.newReplyGapS <= 0.6 && Basic(c, s) && LegalRun(c, s, events) && NobodyEnters(events)
    requires Barred(c, s, span.hi) && Late(w, s, span)
    ensures Late(w, Run(c, s, events), span)
    decreases |events|
  {
    hide Step, Late, Barred, Basic, NobodyEnters;
    if events != [] {
      NobodyEntersLater(events);
      StepBasic(c, s, events[0]);
      StepKeepsBar(c, s, events[0], span.hi);
      StepStaysLate(c, w, s, events[0], span);
      RunStaysLate(c, w, Step(c, s, events[0]), events[1..], span);
    }
  }

  lemma NothingYoungIsLate(w: State)
    requires !YoungAhead(w)
    ensures Late(w, w, Begun(w))
  {
    var es, age, time := w.shaper.queue.entries, w.shaper.queue.maxAgeMs, FreeAt(w);
    HeadIsWithin(es, time, age);
    assert w.sent[|w.sent|..] == [];
    forall i | 0 <= i < |es| ensures Expired(es[i], time, age) { AllDroppedAreExpired(es, time, age, i); }
  }

  lemma {:induction false} NothingYoungCutsOff(c: Config, w: State)
    requires c.frameBytes > 0 && c.newReplyGapS <= 0.6 && Basic(c, w) && w.bargeIn && !YoungAhead(w)
    ensures w.shaper.frameBytes > 0 && CutsOff(c, w)
  {
    forall later | LegalRun(c, w, later) && NobodyEnters(later)
      ensures FramesOf(SentAfter(c, w, later), Begun(w)) <= InHand(w, Begun(w))
    {
      NothingYoungIsLate(w);
      assert Barred(c, w, w.replySeq);
      hide YoungAhead, Barred, FramesOf, InHand;
      RunStaysLate(c, w, w, later, Begun(w));
      LateCounts(w, Run(c, w, later), Begun(w));
    }
  }

  lemma LateCounts(w: State, s: State, span: Span)
    requires Late(w, s, span)
    ensures |w.sent| <= |s.sent| && FramesOf(s.sent[|w.sent|..], span) <= InHand(w, span)
  {
  }

  // ---------- the other direction ----------

  /** One more step in front of a run. */
  lemma {:induction false} Prepend(c: Config, s: State, e: Event, later: seq<Event>) returns (all: seq<Event>)
    requires s.shaper.frameBytes > 0 && Enabled(s, e) && !e.PeerEnter?
    requires LegalRun(c, Step(c, s, e), later) && NobodyEnters(later)
    ensures LegalRun(c, s, all) && NobodyEnters(all) && Run(c, s, all) == Run(c, Step(c, s, e), later)
  {
    hide Step;
    all := [e] + later;
    assert all[1..] == later;
  }

  /** A young head is taken and, once due, sent. */
  lemma {:induction false} YoungHeadIsSent(c: Config, s: State) returns (later: seq<Event>)
    requires s.shaper.frameBytes > 0 && s.shaper.held == None && DropExpired(s.shaper.queue, s.clock).entries != []
    ensures LegalRun(c, s, later) && NobodyEnters(later)
    ensures Run(c, s, later).sent == s.sent + [DownAudio(DropExpired(s.shaper.queue, s.clock).entries[0])]
  {
    var t := OnTake(s, s.clock);
    var wake := t.shaper.held.value.wake;
    assert t == Step(c, s, Take(s.clock)) && Enabled(t, Send(wake));
    var u := OnSend(t, wake);
    assert u == Step(c, t, Send(wake));
    assert u.sent == s.sent + [DownAudio(DropExpired(s.shaper.queue, s.clock).entries[0])];
    hide OnTake, OnSend, Step, DropExpired;
    assert LegalRun(c, u, []) && Run(c, u, []) == u;
    later := Prepend(c, t, Send(wake), []);
    later := Prepend(c, s, Take(s.clock), later);
  }

  /** First the hand, when it is due, and then the head that is still young. */
  lemma {:induction false} YoungFrameGetsThrough(c: Config, w: State) returns (later: seq<Event>, e: Entry)
    requires w.shaper.frameBytes > 0 && YoungAhead(w)
    ensures LegalRun(c, w, later) && NobodyEnters(later) && e in w.shaper.queue.entries
    ensures Run(c, w, later).sent
      == w.sent + (if w.shaper.held.Some? then [DownAudio(w.shaper.held.value.entry)] else []) + [DownAudio(e)]
  {
    var time := FreeAt(w);
    HeadIsWithin(w.shaper.queue.entries, time, w.shaper.queue.maxAgeMs);
    e := DropExpired(w.shaper.queue, time).entries[0];
    if w.shaper.held.Some? {
      var s := OnSend(w, time);
      assert s == Step(c, w, Send(time)) && Enabled(w, Send(time));
      assert s.shaper.queue == w.shaper.queue && s.clock == time;
      assert s.shaper.frameBytes > 0 && s.shaper.held == None;
      assert s.sent == w.sent + [DownAudio(w.shaper.held.value.entry)];
      hide OnSend, Step, DropExpired, FreeAt;
      later := YoungHeadIsSent(c, s);
      later := Prepend(c, w, Send(time), later);
    } else {
      later := YoungHeadIsSent(c, w);
      assert w.sent + [] == w.sent;
    }
  }

  /** Nothing on its way belongs to a reply still to begin. */
  ghost predicate Minted(s: State) {
    && (forall i :: 0 <= i < |s.shaper.queue.entries| ==> s.shaper.queue.entries[i].reply <= s.replySeq)
    && (s.shaper.held.Some? ==> s.shaper.held.value.entry.reply <= s.replySeq)
  }

  lemma ReachableMinted(c: Config, s: State)
    requires Reachable(c, s)
    ensures Minted(s)
  {
    var clock, events :| clock >= 0.0 && LegalRun(c, Init(c, clock), events) && Run(c, Init(c, clock), events) == s;
    var h := SessionOrder.History([], [], 0);
    SessionOrder.RunKept(c, Init(c, clock), events, h);
    KeptIsMinted(c, s, SessionOrder.RunHistory(c, Init(c, clock), events, h));
  }

  lemma KeptIsMinted(c: Config, s: State, h: SessionOrder.History)
    requires SessionOrder.Kept(c, s, h)
    ensures Minted(s)
  {
    var ahead, q := SessionOrder.Ahead(s), s.shaper.queue.entries;
    forall i | 0 <= i < |q| ensures q[i].reply <= s.replySeq {
      assert (ahead + q)[|ahead| + i] == q[i];
    }
    if s.shaper.held.Some? {
      assert (ahead + q)[|ahead| - 1] == s.shaper.held.value.entry;
    }
  }

  lemma {:induction false} CountsBoth(sent: seq<Message>, hand: seq<Message>, e: Entry, span: Span)
    requires |hand| <= 1 && (hand != [] ==> hand[0].DownAudio?) && Within(span, e)
    ensures FramesOf((sent + hand + [DownAudio(e)])[|sent|..], span)
      == One(hand != [] && Within(span, hand[0].frame)) + 1
  {
    assert (sent + hand + [DownAudio(e)])[|sent|..] == hand + [DownAudio(e)];
    FramesOfAppend(hand, DownAudio(e), span);
    if hand != [] { assert hand[1..] == []; }
  }

  lemma YoungAheadLeaks(c: Config, w: State)
    requires w.shaper.frameBytes > 0 && Minted(w) && YoungAhead(w)
    ensures !CutsOff(c, w)
  {
    var later, e := YoungFrameGetsThrough(c, w);
    var hand := if w.shaper.held.Some? then [DownAudio(w.shaper.held.value.entry)] else [];
    CountsBoth(w.sent, hand, e, Begun(w));
    assert FramesOf(SentAfter(c, w, later), Begun(w)) == InHand(w, Begun(w)) + 1;
  }

  /** The exact condition, in every reachable state with an open window, whichever path opened it: nothing of
      the replies begun so far gets through any more, but for the frame in hand, if and only if no queued
      frame is still young when the pacing loop is free to look. */
  lemma CutsOffIffNothingYoung(c: Config, w: State)
    requires Reachable(c, w) && c.newReplyGapS <= 0.6 && w.bargeIn
    ensures w.shaper.frameBytes > 0 && (CutsOff(c, w) <==> !YoungAhead(w))
  {
    ReachableBasic(c, w);
    ReachableMinted(c, w);
    hide Reachable, CutsOff, YoungAhead, Minted;
    if YoungAhead(w) { YoungAheadLeaks(c, w); } else { NothingYoungCutsOff(c, w); }
  }

  lemma {:induction false} RunKeepsFrameBytes(c: Config, s: State, events: seq<Event>)
    requires s.shaper.frameBytes > 0 && LegalRun(c, s, events)
    ensures Run(c, s, events).shaper.frameBytes == s.shaper.frameBytes
    decreases |events|
  {
    hide Step;
    if events != [] { RunKeepsFrameBytes(c, Step(c, s, events[0]), events[1..]); }
  }

  lemma {:induction false} RunFurther(c: Config, s: State, events: seq<Event>, e: Event)
    requires s.shaper.frameBytes > 0 && LegalRun(c, s, events)
    requires Run(c, s, events).shaper.frameBytes > 0 && Enabled(Run(c, s, events), e)
    ensures LegalRun(c, s, events + [e])
    ensures Run(c, s, events + [e]) == Step(c, Run(c, s, events), e)
    decreases |events|
  {
    hide Step;
    if events == [] {
      assert [e][1..] == [] && events + [e] == [e];
      var t := Step(c, s, e);
      assert LegalRun(c, t, []) && Run(c, t, []) == t;
    } else {
      assert (events + [e])[0] == events[0] && (events + [e])[1..] == events[1..] + [e];
      RunFurther(c, Step(c, s, events[0]), events[1..], e);
    }
  }

  lemma ReachableStep(c: Config, s: State, e: Event)
    requires Reachable(c, s) && s.shaper.frameBytes > 0 && Enabled(s, e)
    ensures Reachable(c, Step(c, s, e)) && Step(c, s, e).shaper.frameBytes > 0
  {
    var clock, events :| clock >= 0.0 && LegalRun(c, Init(c, clock), events) && Run(c, Init(c, clock), events) == s;
    assert Init(c, clock).shaper.frameBytes > 0;
    hide Step, Init;
    RunFurther(c, Init(c, clock), events, e);
  }

  lemma {:induction false} ReachableRun(c: Config, s: State, events: seq<Event>)
    requires Reachable(c, s) && s.shaper.frameBytes > 0 && LegalRun(c, s, events)
    ensures Reachable(c, Run(c, s, events)) && Run(c, s, events).shaper.frameBytes > 0
    decreases |events|
  {
    hide Step, Reachable;
    if events != [] {
      ReachableStep(c, s, events[0]);
      ReachableRun(c, Step(c, s, events[0]), events[1..]);
    }
  }

  /** So for the cloud path, whatever ran between the handler's two halves: it cuts the replies off exactly
      when it leaves no young frame in the queue. */
  lemma CloudCutsOffIffNothingYoung(c: Config, s: State, now: real, mid: seq<Event>)
    requires Reachable(c, s) && c.newReplyGapS <= 0.6 && CloudInterrupt(c, s, now, mid)
    ensures var w := WindowOpen(c, s, now, mid);
      w.shaper.frameBytes > 0 && (CutsOff(c, w) <==> !YoungAhead(w))
  {
    var t := OnCloudSpeechBegins(s, now);
    assert Enabled(s, CloudSpeechBegins(now)) && t == Step(c, s, CloudSpeechBegins(now));
    RunKeepsFrameBytes(c, t, mid);
    assert Enabled(Run(c, t, mid), CloudSpeechEnds);
    assert WindowOpen(c, s, now, mid) == Step(c, Run(c, t, mid), CloudSpeechEnds);
    assert WindowOpen(c, s, now, mid).bargeIn;
    hide Step, Reachable, Run, LegalRun, OnCloudSpeechBegins, CutsOff, YoungAhead;
    ReachableStep(c, s, CloudSpeechBegins(now));
    ReachableRun(c, t, mid);
    ReachableStep(c, Run(c, t, mid), CloudSpeechEnds);
    CutsOffIffNothingYoung(c, WindowOpen(c, s, now, mid));
  }
}
