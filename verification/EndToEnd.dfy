/** From the barge-in decision in the bridge to the frames the sidecar injects into the call. */
module EndToEnd {
  import opened AudioQueue
  import P = Pacer
  import S = Session
  import opened CutThrough
  import opened CloudCut

  /** The sidecar reading the wire: how far it has read, its pacer, and what it has injected. */
  datatype Receiver = Receiver(next: nat, pacer: P.Pacer<Entry>, injected: seq<Entry>)

  datatype ReceiverEvent = Deliver | TickNow

  predicate CanStep(wire: seq<S.Message>, r: Receiver, e: ReceiverEvent) {
    e.Deliver? ==> r.next < |wire|
  }

  function Receive(wire: seq<S.Message>, r: Receiver, e: ReceiverEvent): Receiver
    requires CanStep(wire, r, e)
  {
    match e
    case Deliver =>
      if wire[r.next].DownAudio? then r.(next := r.next + 1, pacer := P.Push(r.pacer, wire[r.next].frame))
      else r.(next := r.next + 1, pacer := P.Clear(r.pacer))
    case TickNow =>
      r.(pacer := P.Tick(r.pacer), injected := r.injected + P.Output(r.pacer, P.TickE))
  }

  predicate LegalReception(wire: seq<S.Message>, r: Receiver, events: seq<ReceiverEvent>)
    decreases |events|
  {
    events == [] || (CanStep(wire, r, events[0]) && LegalReception(wire, Receive(wire, r, events[0]), events[1..]))
  }

  function Reception(wire: seq<S.Message>, r: Receiver, events: seq<ReceiverEvent>): Receiver
    requires LegalReception(wire, r, events)
    decreases |events|
  {
    if events == [] then r else Reception(wire, Receive(wire, r, events[0]), events[1..])
  }

  /** Injected since `from`, or waiting in the pacer: no more than arrived since message `base`. */
  ghost predicate Bounded(wire: seq<S.Message>, r: Receiver, base: nat, from: nat, span: Span) {
    && base <= r.next <= |wire| && from <= |r.injected|
    && CountOf(r.injected[from..], span) + CountOf(r.pacer.queue, span) <= FramesOf(wire[base..r.next], span)
  }

  lemma StepBounded(wire: seq<S.Message>, r: Receiver, e: ReceiverEvent, base: nat, from: nat, span: Span)
    requires CanStep(wire, r, e) && Bounded(wire, r, base, from, span)
    ensures Bounded(wire, Receive(wire, r, e), base, from, span)
  {
    match e
    case Deliver =>
      var m := wire[r.next];
      assert wire[base..r.next + 1] == wire[base..r.next] + [m];
      FramesOfAppend(wire[base..r.next], m, span);
      if m.DownAudio? { PushCounts(r.pacer, m.frame, span); }
    case TickNow =>
      TickCounts(r.pacer.queue, r.injected, from, span);
  }

  lemma PushCounts(p: P.Pacer<Entry>, frame: Entry, span: Span)
    ensures CountOf(P.Push(p, frame).queue, span) <= CountOf(p.queue, span) + One(Within(span, frame))
  {
    var all := p.queue + [frame];
    assert all[..|all| - 1] == p.queue;
    CountOfSuffix(all, if |all| > p.maxFrames then |all| - p.maxFrames else 0, span);
  }

  lemma TickCounts(q: seq<Entry>, injected: seq<Entry>, from: nat, span: Span)
    requires from <= |injected|
    ensures q != [] ==>
      CountOf((injected + [q[0]])[from..], span) + CountOf(q[1..], span)
      == CountOf(injected[from..], span) + CountOf(q, span)
    ensures injected + [] == injected
  {
    if q != [] {
      assert [q[0]] + q[1..] == q;
      CountOfConcat([q[0]], q[1..], span);
      CountOfConcat(injected[from..], [q[0]], span);
      assert (injected + [q[0]])[from..] == injected[from..] + [q[0]];
    }
  }

  lemma {:induction false} ReceptionBounded(wire: seq<S.Message>, r: Receiver, events: seq<ReceiverEvent>,
        base: nat, from: nat, span: Span)
    requires LegalReception(wire, r, events) && Bounded(wire, r, base, from, span)
    ensures Bounded(wire, Reception(wire, r, events), base, from, span)
    decreases |events|
  {
    hide Receive, Bounded;
    if events != [] {
      StepBounded(wire, r, events[0], base, from, span);
      ReceptionBounded(wire, Receive(wire, r, events[0]), events[1..], base, from, span);
    }
  }

  lemma {:induction false} FramesOfPrefix(sent: seq<S.Message>, k: nat, span: Span)
    requires k <= |sent|
    ensures FramesOf(sent[..k], span) <= FramesOf(sent, span)
  {
    if k > 0 {
      FramesOfPrefix(sent[1..], k - 1, span);
      assert sent[..k][1..] == sent[1..][..k - 1];
    }
  }

  /** From the moment the sidecar reads a flush order, it injects no more frames than follow the order on
      the wire, whatever it ticks and in whatever order. */
  lemma InjectedAtMostWhatFollows(wire: seq<S.Message>, r: Receiver, events: seq<ReceiverEvent>, span: Span)
    requires r.next < |wire| && wire[r.next] == S.FlushDownlink
    requires LegalReception(wire, Receive(wire, r, Deliver), events)
    ensures var end := Reception(wire, Receive(wire, r, Deliver), events);
      && |r.injected| <= |end.injected|
      && CountOf(end.injected[|r.injected|..], span) <= FramesOf(wire[r.next..], span)
  {
    hide Receive, LegalReception, Reception, CountOf, FramesOf;
    var flushed := Receive(wire, r, Deliver);
    FlushReceived(wire, r, span);
    ReceptionBounded(wire, flushed, events, r.next, |r.injected|, span);
    BoundedByTheWire(wire, Reception(wire, flushed, events), r.next, |r.injected|, span);
  }

  /** Interrupt cut-through, end to end. A window opens in the bridge; later the sidecar reads the flush
      order that was sent with it. From then on, whatever both sides do until a peer re-enters, the
      sidecar injects at most the one frame that was in hand, of the interrupted reply (lo = replySeq) and
      of all replies so far (lo = 0). */
  lemma InterruptIsInaudible(c: S.Config, s: S.State, e: S.Event, later: seq<S.Event>, lo: nat,
      r: Receiver, events: seq<ReceiverEvent>)
    requires S.Reachable(c, s) && c.newReplyGapS <= 0.6 && s.shaper.frameBytes > 0
    requires OpensWindow(c, s, e) && S.LegalRun(c, S.Step(c, s, e), later) && NobodyEnters(later)
    requires r.next == |s.sent| && CanStep(S.Run(c, S.Step(c, s, e), later).sent, r, Deliver)
    requires LegalReception(S.Run(c, S.Step(c, s, e), later).sent,
                            Receive(S.Run(c, S.Step(c, s, e), later).sent, r, Deliver), events)
    ensures var wire := S.Run(c, S.Step(c, s, e), later).sent;
            var end := Reception(wire, Receive(wire, r, Deliver), events);
            && |r.injected| <= |end.injected|
            && CountOf(end.injected[|r.injected|..], Span(lo, s.replySeq)) <= InHand(s, Span(lo, s.replySeq))
  {
    var wire := S.Run(c, S.Step(c, s, e), later).sent;
    InterruptCutsThrough(c, s, e, later, lo);
    SentGrows(c, S.Step(c, s, e), later);
    OpeningEmptiesTheQueue(c, s, e);
    hide S.Step, S.Run, S.LegalRun, S.Reachable, OpensWindow, Receive, LegalReception, Reception, CountOf, FramesOf;
    InjectedAtMostWhatFollows(wire, r, events, Span(lo, s.replySeq));
  }

  lemma CloudFlushIsSent(c: S.Config, s: S.State, now: real, mid: seq<S.Event>, later: seq<S.Event>)
    requires c.frameBytes > 0 && Basic(c, s) && CloudInterrupt(c, s, now, mid)
    requires WindowOpen(c, s, now, mid).shaper.frameBytes > 0
    requires S.LegalRun(c, WindowOpen(c, s, now, mid), later)
    ensures s.sent + [S.FlushDownlink] <= S.Run(c, WindowOpen(c, s, now, mid), later).sent
  {
    var t, w := S.OnCloudSpeechBegins(s, now), WindowOpen(c, s, now, mid);
    BeginningEmptiesTheQueue(s, now);
    SentGrows(c, t, mid);
    WindowIsOpen(c, s, now, mid);
    assert w.sent == S.Run(c, t, mid).sent;
    SentGrows(c, w, later);
  }

  /** The same for the cloud path, whose flush order goes out as its handler begins: from reading it on, the
      sidecar injects of any replies begun before the window opens at most the frame in hand and those cut
      between the handler's two halves. */
  lemma {:induction false} CloudInterruptInjectsAtMost(c: S.Config, s: S.State, now: real, mid: seq<S.Event>,
      later: seq<S.Event>, span: Span, r: Receiver, events: seq<ReceiverEvent>)
    requires S.Reachable(c, s) && c.newReplyGapS <= 0.6 && CloudInterrupt(c, s, now, mid)
    requires WindowOpen(c, s, now, mid).shaper.frameBytes > 0 && S.LegalRun(c, WindowOpen(c, s, now, mid), later)
    requires NobodyEnters(later) && span.hi <= WindowOpen(c, s, now, mid).replySeq
    requires r.next == |s.sent| && CanStep(S.Run(c, WindowOpen(c, s, now, mid), later).sent, r, Deliver)
    requires LegalReception(S.Run(c, WindowOpen(c, s, now, mid), later).sent,
                            Receive(S.Run(c, WindowOpen(c, s, now, mid), later).sent, r, Deliver), events)
    ensures var wire := S.Run(c, WindowOpen(c, s, now, mid), later).sent;
            var end := Reception(wire, Receive(wire, r, Deliver), events);
            && |r.injected| <= |end.injected|
            && CountOf(end.injected[|r.injected|..], span)
               <= InHand(s, span) + CutDuring(c, S.OnCloudSpeechBegins(s, now), mid, span)
  {
    var wire := S.Run(c, WindowOpen(c, s, now, mid), later).sent;
    CloudInterruptBound(c, s, now, mid, later, span);
    ReachableBasic(c, s);
    CloudFlushIsSent(c, s, now, mid, later);
    assert wire[r.next] == S.FlushDownlink;
    hide S.Step, S.Run, S.LegalRun, S.Reachable, Receive, LegalReception, Reception, CountOf, FramesOf, CutDuring;
    hide InHand, WindowOpen, CloudInterrupt, S.OnCloudSpeechBegins;
    InjectedAtMostWhatFollows(wire, r, events, span);
  }

  lemma FlushReceived(wire: seq<S.Message>, r: Receiver, span: Span)
    requires r.next < |wire| && wire[r.next] == S.FlushDownlink
    ensures Bounded(wire, Receive(wire, r, Deliver), r.next, |r.injected|, span)
  {
    assert wire[r.next..r.next + 1] == [S.FlushDownlink];
    assert r.injected[|r.injected|..] == [];
  }

  lemma BoundedByTheWire(wire: seq<S.Message>, end: Receiver, base: nat, from: nat, span: Span)
    requires Bounded(wire, end, base, from, span)
    ensures from <= |end.injected| && CountOf(end.injected[from..], span) <= FramesOf(wire[base..], span)
  {
    FramesOfPrefix(wire[base..], end.next - base, span);
    assert wire[base..][..end.next - base] == wire[base..end.next];
  }
}
