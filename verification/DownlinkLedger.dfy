/** The per-reply account of downlink frames that the sidecar logs (sidecar/rtc.js). */
module DownlinkLedger {
  import opened Outcomes
  import opened Pacer

  /** downProbe: which reply is arriving, how many of its frames came, and the pacer's totals when it
      began. */
  datatype Probe = Probe(replyId: Option<nat>, frames: nat, sentBase: nat, droppedBase: nat, underrunBase: nat)

  const IDLE := Probe(None, 0, 0, 0, 0)

  datatype Sidecar<T> = Sidecar(probe: Probe, pacer: Pacer<T>)

  predicate StartsReply<T>(s: Sidecar<T>, replyId: Option<nat>) {
    replyId.Some? && replyId != s.probe.replyId
  }

  /** The downlink callback: snapshot on a new reply, count, queue. */
  function OnDownAudio<T>(s: Sidecar<T>, replyId: Option<nat>, frame: T): Sidecar<T> {
    var probe :=
      if StartsReply(s, replyId)
      then Probe(replyId, 0, s.pacer.sent, s.pacer.dropped, s.pacer.underruns)
      else s.probe;
    Sidecar(probe.(frames := probe.frames + 1), Push(s.pacer, frame))
  }

  datatype SidecarEvent<T> = DownE(replyId: Option<nat>, frame: T) | TickNow | FlushNow

  function Step<T>(s: Sidecar<T>, e: SidecarEvent<T>): Sidecar<T> {
    match e
    case DownE(replyId, frame) => OnDownAudio(s, replyId, frame)
    case TickNow => s.(pacer := Tick(s.pacer))
    case FlushNow => s.(pacer := Clear(s.pacer))
  }

  /** The logged balance: arrived - sent - pending - dropped, all since the reply began. */
  function Balance<T>(s: Sidecar<T>): int {
    s.probe.frames - (s.pacer.sent - s.probe.sentBase) - |s.pacer.queue| - (s.pacer.dropped - s.probe.droppedBase)
  }

  /** History: frames that were pending when the current reply's first frame arrived. */
  function PendingAtStart<T>(s: Sidecar<T>, e: SidecarEvent<T>, pending: nat): nat {
    if e.DownE? && StartsReply(s, e.replyId) then |s.pacer.queue| else pending
  }

  function RunSidecar<T>(s: Sidecar<T>, events: seq<SidecarEvent<T>>): Sidecar<T>
    decreases |events|
  {
    if events == [] then s else RunSidecar(Step(s, events[0]), events[1..])
  }

  function RunPending<T>(s: Sidecar<T>, events: seq<SidecarEvent<T>>, pending: nat): nat
    decreases |events|
  {
    if events == [] then pending else RunPending(Step(s, events[0]), events[1..], PendingAtStart(s, events[0], pending))
  }

  lemma {:induction false} BalanceIsMinusPending<T>(s: Sidecar<T>, events: seq<SidecarEvent<T>>, pending: nat)
    requires Balanced(s.pacer) && Balance(s) == -(pending as int)
    ensures Balance(RunSidecar(s, events)) == -(RunPending(s, events, pending) as int)
    decreases |events|
  {
    if events != [] {
      BalanceIsMinusPending(Step(s, events[0]), events[1..], PendingAtStart(s, events[0], pending));
    }
  }

  /** The balance the log calls "must be 0" is minus the frames of earlier replies that were still
      pending when the current reply began: it is 0 exactly when the pacer was empty then. */
  lemma BalanceIsZeroIffPacerWasEmpty<T>(maxFrames: nat, events: seq<SidecarEvent<T>>)
    ensures var s0 := Sidecar(IDLE, New<T>(maxFrames));
            && Balance(RunSidecar(s0, events)) == -(RunPending(s0, events, 0) as int)
            && (Balance(RunSidecar(s0, events)) == 0 <==> RunPending(s0, events, 0) == 0)
  {
    BalanceIsMinusPending(Sidecar(IDLE, New<T>(maxFrames)), events, 0);
  }

  /** It is not always 0: two frames of one reply still wait when the next reply begins. */
  lemma BalanceCanMissByTwo<T>(maxFrames: nat, x: T)
    requires maxFrames >= 2
    ensures var events := [DownE(Some(1), x), DownE(Some(1), x), DownE(Some(2), x)];
      Balance(RunSidecar(Sidecar(IDLE, New<T>(maxFrames)), events)) == -2
  {
    var s0 := Sidecar(IDLE, New<T>(maxFrames));
    var e1, e2 := DownE(Some(1), x), DownE(Some(2), x);
    var events := [e1, e1, e2];
    var s1 := Step(s0, e1);
    var s2 := Step(s1, e1);
    assert s1.pacer.queue == [x] && s2.pacer.queue == [x, x];
    assert events[1..] == [e1, e2] && [e1, e2][1..] == [e2] && [e2][1..] == [];
    assert RunPending(s0, events, 0) == RunPending(s1, [e1, e2], 0) == RunPending(s2, [e2], 0);
    assert RunPending(s2, [e2], 0) == RunPending(Step(s2, e2), [], 2) == 2;
    BalanceIsZeroIffPacerWasEmpty(maxFrames, events);
  }

  /** What the log line of a reply shows, counted from its first frame on. */
  datatype Figures = Figures(arrived: nat, sent: nat, dropped: nat, underruns: nat)

  const NO_FIGURES := Figures(0, 0, 0, 0)

  function FiguresAfter<T>(s: Sidecar<T>, e: SidecarEvent<T>, f: Figures): Figures {
    var base := if e.DownE? && StartsReply(s, e.replyId) then NO_FIGURES else f;
    match e
    case DownE(_, _) =>
      var full := |s.pacer.queue| >= s.pacer.maxFrames;
      base.(arrived := base.arrived + 1,
            dropped := base.dropped + if full then |s.pacer.queue| + 1 - s.pacer.maxFrames else 0)
    case TickNow =>
      if s.pacer.queue == [] then base.(underruns := base.underruns + 1) else base.(sent := base.sent + 1)
    case FlushNow => base.(dropped := base.dropped + |s.pacer.queue|)
  }

  function RunFigures<T>(s: Sidecar<T>, events: seq<SidecarEvent<T>>, f: Figures): Figures
    decreases |events|
  {
    if events == [] then f else RunFigures(Step(s, events[0]), events[1..], FiguresAfter(s, events[0], f))
  }

  ghost predicate Shows<T>(s: Sidecar<T>, f: Figures) {
    && s.probe.frames == f.arrived && s.pacer.sent == s.probe.sentBase + f.sent
    && s.pacer.dropped == s.probe.droppedBase + f.dropped && s.pacer.underruns == s.probe.underrunBase + f.underruns
  }

  /** Over every run the figures logged are those of the current reply: the frames that arrived, went out, were
      dropped and the ticks that found none, all since its first frame. */
  lemma {:induction false} FiguresAreOfTheReply<T>(s: Sidecar<T>, events: seq<SidecarEvent<T>>, f: Figures)
    requires Shows(s, f)
    ensures Shows(RunSidecar(s, events), RunFigures(s, events, f))
    decreases |events|
  {
    if events != [] { FiguresAreOfTheReply(Step(s, events[0]), events[1..], FiguresAfter(s, events[0], f)); }
  }

  /** The downlink side of the sidecar: the probe variables beside the pacer they account for. */
  class SidecarDownlink<T> {
    const pacer: DownlinkPacer<T>
    var replyId: Option<nat>
    var frames: nat
    var sentBase: nat
    var droppedBase: nat
    var underrunBase: nat

    ghost function Model(): Sidecar<T>
      reads this, pacer
    {
      Sidecar(Probe(replyId, frames, sentBase, droppedBase, underrunBase), pacer.Model())
    }

    constructor (maxFrames: nat)
      requires maxFrames > 0
      ensures Model() == Sidecar(IDLE, New<T>(maxFrames)) && fresh(pacer)
    {
      pacer := new DownlinkPacer(maxFrames);
      replyId := None;
      frames, sentBase, droppedBase, underrunBase := 0, 0, 0, 0;
    }

    /** The callback for one received frame; `balance` is the figure it logs. */
    method OnDown(reply: Option<nat>, frame: T) returns (balance: int)
      modifies this, pacer
      ensures Model() == OnDownAudio(old(Model()), reply, frame)
      ensures balance == Balance(Model())
    {
      if reply.Some? && reply != replyId {
        replyId := reply;
        frames := 0;
        sentBase := pacer.sent;
        droppedBase := pacer.dropped;
        underrunBase := pacer.underruns;
      }
      frames := frames + 1;
      pacer.PushFrame(frame);
      var sentDelta := pacer.sent - sentBase;
      var droppedDelta := pacer.dropped - droppedBase;
      balance := frames - sentDelta - |pacer.queue| - droppedDelta;
    }

    method OnFlushDownlink() returns (dropped: nat)
      modifies pacer
      ensures Model() == Step(old(Model()), FlushNow) && dropped == |old(pacer.queue)|
    {
      dropped := pacer.ClearAll();
    }
  }
}
