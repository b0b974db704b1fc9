/** The sidecar's pacer (sidecar/downlink_pacer.js): one frame a tick, bounded, cleared on a barge-in. */
module Pacer {

  datatype Pacer<T> = Pacer(
    maxFrames: nat, queue: seq<T>, queued: nat, sent: nat, dropped: nat, maxQueue: nat, ticks: nat, underruns: nat)

  function New<T>(maxFrames: nat): Pacer<T> { Pacer(maxFrames, [], 0, 0, 0, 0, 0, 0) }

  /** At the limit the oldest frame makes room. */
  function Push<T>(p: Pacer<T>, x: T): Pacer<T> {
    var q := p.queue + [x];
    var over := if |q| > p.maxFrames then |q| - p.maxFrames else 0;
    p.(queue := q[over..], queued := p.queued + 1, dropped := p.dropped + over,
       maxQueue := if |q| > p.maxQueue then |q| else p.maxQueue)
  }

  function Tick<T>(p: Pacer<T>): Pacer<T> {
    if p.queue == [] then p.(ticks := p.ticks + 1, underruns := p.underruns + 1)
    else p.(queue := p.queue[1..], sent := p.sent + 1, ticks := p.ticks + 1)
  }

  function Clear<T>(p: Pacer<T>): Pacer<T> {
    p.(queue := [], dropped := p.dropped + |p.queue|)
  }

  datatype PacerEvent<T> = PushE(x: T) | TickE | ClearE

  function Apply<T>(p: Pacer<T>, e: PacerEvent<T>): Pacer<T> {
    match e
    case PushE(x) => Push(p, x)
    case TickE => Tick(p)
    case ClearE => Clear(p)
  }

  /** What an event hands to the SDK. */
  function Output<T>(p: Pacer<T>, e: PacerEvent<T>): seq<T> {
    if e.TickE? && p.queue != [] then [p.queue[0]] else []
  }

  function Run<T>(p: Pacer<T>, events: seq<PacerEvent<T>>): Pacer<T>
    decreases |events|
  {
    if events == [] then p else Run(Apply(p, events[0]), events[1..])
  }

  function Outputs<T>(p: Pacer<T>, events: seq<PacerEvent<T>>): seq<T>
    decreases |events|
  {
    if events == [] then [] else Output(p, events[0]) + Outputs(Apply(p, events[0]), events[1..])
  }

  ghost predicate Balanced<T>(p: Pacer<T>) {
    && p.queued == p.sent + p.dropped + |p.queue|
    && p.ticks == p.sent + p.underruns
    && |p.queue| <= p.maxFrames
    && p.maxQueue <= p.maxFrames + 1
  }

  lemma {:induction false} RunBalanced<T>(p: Pacer<T>, events: seq<PacerEvent<T>>)
    requires Balanced(p)
    ensures Balanced(Run(p, events)) && Run(p, events).maxFrames == p.maxFrames
    ensures Run(p, events).sent == p.sent + |Outputs(p, events)|
    decreases |events|
  {
    if events != [] { RunBalanced(Apply(p, events[0]), events[1..]); }
  }

  /** The ledger always balances: every frame queued was sent, dropped or is pending, and every tick
      sent a frame or found none. */
  lemma LedgerBalances<T>(maxFrames: nat, events: seq<PacerEvent<T>>)
    ensures var p := Run(New<T>(maxFrames), events);
            && p.queued == p.sent + p.dropped + |p.queue|
            && p.ticks == p.sent + p.underruns
            && p.sent == |Outputs(New<T>(maxFrames), events)|
            && |p.queue| <= maxFrames && p.maxQueue <= maxFrames + 1
  {
    RunBalanced(New<T>(maxFrames), events);
  }

  // ---------- delay ----------

  /** A frame marked with the tick count and the number of clears at its push. */
  datatype Stamped<T> = Stamped(frame: T, tick: nat, clears: nat)

  function Clears<T>(clears: nat, e: PacerEvent<T>): nat { if e.ClearE? then clears + 1 else clears }

  /** Frames are stamped truthfully. */
  ghost predicate StampedRun<T>(p: Pacer<Stamped<T>>, clears: nat, events: seq<PacerEvent<Stamped<T>>>)
    decreases |events|
  {
    events == [] ||
    (&& (events[0].PushE? ==> events[0].x.tick == p.ticks && events[0].x.clears == clears)
     && StampedRun(Apply(p, events[0]), Clears(clears, events[0]), events[1..]))
  }

  ghost predicate OnSchedule<T>(p: Pacer<Stamped<T>>, clears: nat) {
    forall i :: 0 <= i < |p.queue| ==>
      p.queue[i].tick <= p.ticks && p.ticks + i + 1 <= p.queue[i].tick + p.maxFrames && p.queue[i].clears == clears
  }

  /** The `k`-th output of a run, with the tick and the number of clears at which it went out. */
  ghost predicate TimelyOutputs<T>(p: Pacer<Stamped<T>>, clears: nat, events: seq<PacerEvent<Stamped<T>>>)
    decreases |events|
  {
    events == [] ||
    (&& (forall x :: x in Output(p, events[0]) ==> p.ticks + 1 <= x.tick + p.maxFrames && x.clears == clears)
     && TimelyOutputs(Apply(p, events[0]), Clears(clears, events[0]), events[1..]))
  }

  /** Every frame that is sent goes out within `maxFrames` ticks of its push, and never after a clear. */
  lemma {:induction false} DelayIsBounded<T>(p: Pacer<Stamped<T>>, clears: nat, events: seq<PacerEvent<Stamped<T>>>)
    requires p.maxFrames > 0 && |p.queue| <= p.maxFrames && OnSchedule(p, clears) && StampedRun(p, clears, events)
    ensures TimelyOutputs(p, clears, events)
    decreases |events|
  {
    if events != [] {
      DelayIsBounded(Apply(p, events[0]), Clears(clears, events[0]), events[1..]);
    }
  }

  // ---------- which frames ----------

  /** Every frame ever pushed. */
  function Pushed<T>(events: seq<PacerEvent<T>>): seq<T> {
    if events == [] then [] else (if events[0].PushE? then [events[0].x] else []) + Pushed(events[1..])
  }

  ghost predicate IsSuffix<T>(a: seq<T>, b: seq<T>) {
    |a| <= |b| && a == b[|b| - |a|..]
  }

  lemma StepKeepsNewest<T>(p: Pacer<T>, e: PacerEvent<T>, before: seq<T>)
    requires IsSuffix(p.queue, before)
    ensures IsSuffix(Apply(p, e).queue, before + if e.PushE? then [e.x] else [])
  {
    var after := before + if e.PushE? then [e.x] else [];
    if e.PushE? {
      assert p.queue + [e.x] == after[|before| - |p.queue|..];
    } else {
      assert after == before;
    }
  }

  lemma Associate<T>(a: seq<T>, b: seq<T>, c: seq<T>)
    ensures (a + b) + c == a + (b + c) && a + [] == a
  {
  }

  lemma OnePushed<T>(events: seq<PacerEvent<T>>)
    requires events != []
    ensures Pushed(events) == (if events[0].PushE? then [events[0].x] else []) + Pushed(events[1..])
  {
  }

  /** What is pending are always the newest frames pushed: the oldest make room, and the oldest go out. */
  lemma {:induction false} PendingAreTheNewest<T>(p: Pacer<T>, events: seq<PacerEvent<T>>, before: seq<T>)
    requires IsSuffix(p.queue, before)
    ensures IsSuffix(Run(p, events).queue, before + Pushed(events))
    decreases |events|
  {
    hide Apply, IsSuffix;
    if events == [] {
      Associate(before, [], []);
    } else {
      hide Pushed;
      var more := if events[0].PushE? then [events[0].x] else [];
      OnePushed(events);
      StepKeepsNewest(p, events[0], before);
      PendingAreTheNewest(Apply(p, events[0]), events[1..], before + more);
      Associate(before, more, Pushed(events[1..]));
    }
  }

  /** A push loses nothing below the limit and one frame, the oldest, at it; a tick sends the oldest pending frame
      and leaves the others; a clear loses them all. */
  lemma WhatStaysPending<T>(p: Pacer<T>, e: PacerEvent<T>)
    requires p.maxFrames > 0 && |p.queue| <= p.maxFrames
    ensures var t := Apply(p, e);
      && (e.PushE? && |p.queue| < p.maxFrames ==> t.queue == p.queue + [e.x] && t.dropped == p.dropped)
      && (e.PushE? && |p.queue| == p.maxFrames ==> t.queue == p.queue[1..] + [e.x] && t.dropped == p.dropped + 1)
      && (e.TickE? && p.queue != [] ==> Output(p, e) == p.queue[..1] && p.queue == Output(p, e) + t.queue)
      && (e.TickE? && p.queue == [] ==> Output(p, e) == [] && t.queue == [] && t.underruns == p.underruns + 1)
      && (e.ClearE? ==> t.queue == [] && t.dropped == p.dropped + |p.queue| && Output(p, e) == [])
  {
  }

  /** Frames numbered as they are pushed. */
  ghost predicate Numbered(next: nat, events: seq<PacerEvent<nat>>)
    decreases |events|
  {
    events == [] ||
    (if events[0].PushE? then events[0].x == next && Numbered(next + 1, events[1..]) else Numbered(next, events[1..]))
  }

  ghost predicate Rising(s: seq<nat>) {
    forall i, j :: 0 <= i < j < |s| ==> s[i] < s[j]
  }

  ghost predicate From(s: seq<nat>, low: nat, high: nat) {
    forall i :: 0 <= i < |s| ==> low <= s[i] < high
  }

  lemma HeadAndTail(q: seq<nat>, low: nat, high: nat)
    requires q != [] && Rising(q) && From(q, low, high)
    ensures Rising(q[1..]) && From(q[1..], q[0] + 1, high) && low <= q[0] < high
  {
    assert forall i :: 0 <= i < |q[1..]| ==> q[1..][i] == q[i + 1];
  }

  lemma SuffixAndNext(q: seq<nat>, k: nat, next: nat, low: nat)
    requires Rising(q) && From(q, low, next) && k <= |q| + 1 && low <= next
    ensures Rising((q + [next])[k..]) && From((q + [next])[k..], low, next + 1)
  {
    var all := q + [next];
    assert forall i :: 0 <= i < |all[k..]| ==> all[k..][i] == all[k + i];
  }

  /** Below what the queue cannot hold any more, once the event is over. */
  function LowAfter(p: Pacer<nat>, e: PacerEvent<nat>, low: nat): nat {
    if e.TickE? && p.queue != [] then p.queue[0] + 1 else low
  }

  function NextAfter(e: PacerEvent<nat>, next: nat): nat {
    if e.PushE? then next + 1 else next
  }

  lemma StepInOrder(p: Pacer<nat>, e: PacerEvent<nat>, low: nat, next: nat)
    requires low <= next && Rising(p.queue) && From(p.queue, low, next) && (e.PushE? ==> e.x == next)
    ensures var t := Apply(p, e);
      && low <= LowAfter(p, e, low) <= NextAfter(e, next) <= next + 1
      && Rising(t.queue) && From(t.queue, LowAfter(p, e, low), NextAfter(e, next))
  {
    match e
    case TickE => if p.queue != [] { HeadAndTail(p.queue, low, next); }
    case PushE(x) =>
      var over := if |p.queue| + 1 > p.maxFrames then |p.queue| + 1 - p.maxFrames else 0;
      SuffixAndNext(p.queue, over, next, low);
    case ClearE =>
  }

  lemma OneOutput(p: Pacer<nat>, events: seq<PacerEvent<nat>>)
    requires events != []
    ensures Outputs(p, events) == Output(p, events[0]) + Outputs(Apply(p, events[0]), events[1..])
  {
  }

  /** An event hands over nothing, or what lies below the rest. */
  lemma InFront(p: Pacer<nat>, e: PacerEvent<nat>, low: nat, rest: seq<nat>, high: nat, further: nat)
    requires Rising(rest) && From(rest, LowAfter(p, e, low), high) && high <= further
    requires From(p.queue, low, further) && low <= LowAfter(p, e, low)
    ensures Rising(Output(p, e) + rest) && From(Output(p, e) + rest, low, further)
  {
    var all := Output(p, e) + rest;
    if e.TickE? && p.queue != [] {
      assert forall i :: 0 < i < |all| ==> all[i] == rest[i - 1];
    } else {
      assert all == rest;
    }
  }

  lemma Wider(q: seq<nat>, low: nat, high: nat, further: nat)
    requires From(q, low, high) && high <= further
    ensures From(q, low, further)
  {
  }

  /** Frames go out in the order in which they were pushed, each at most once. */
  lemma {:induction false} OutputsInOrder(p: Pacer<nat>, low: nat, next: nat, events: seq<PacerEvent<nat>>)
    requires low <= next && Rising(p.queue) && From(p.queue, low, next) && Numbered(next, events)
    ensures Rising(Outputs(p, events)) && From(Outputs(p, events), low, next + |events|)
    decreases |events|
  {
    if events != [] {
      hide Rising, From, Apply, Output, Outputs, LowAfter;
      var e, rest := events[0], events[1..];
      StepInOrder(p, e, low, next);
      OutputsInOrder(Apply(p, e), LowAfter(p, e, low), NextAfter(e, next), rest);
      OneOutput(p, events);
      Wider(p.queue, low, next, next + |events|);
      InFront(p, e, low, Outputs(Apply(p, e), rest), NextAfter(e, next) + |rest|, next + |events|);
    }
  }

  // ---------- the pacer as an object ----------

  class DownlinkPacer<T> {
    const maxFrames: nat
    var queue: seq<T>
    var queued: nat
    var sent: nat
    var dropped: nat
    var maxQueue: nat
    var ticks: nat
    var underruns: nat
    /** The calls made to the SDK's send function. */
    var out: seq<T>

    ghost function Model(): Pacer<T>
      reads this
    {
      Pacer(maxFrames, queue, queued, sent, dropped, maxQueue, ticks, underruns)
    }

    constructor (maxFrames: nat)
      requires maxFrames > 0
      ensures Model() == New<T>(maxFrames) && out == []
    {
      this.maxFrames := maxFrames;
      queue, out := [], [];
      queued, sent, dropped, maxQueue, ticks, underruns := 0, 0, 0, 0, 0, 0;
    }

    method PushFrame(x: T)
      modifies this
      ensures Model() == Push(old(Model()), x) && out == old(out)
    {
      queue := queue + [x];
      queued := queued + 1;
      if |queue| > maxQueue { maxQueue := |queue|; }
      ghost var all := queue;
      ghost var k := 0;
      while |queue| > maxFrames
        invariant k <= |all| && queue == all[k..] && dropped == old(dropped) + k
        invariant k > 0 ==> |queue| >= maxFrames
        invariant queued == old(queued) + 1 && sent == old(sent) && ticks == old(ticks) && underruns == old(underruns)
        invariant maxQueue == Push(old(Model()), x).maxQueue && out == old(out)
        decreases |queue|
      {
        queue := queue[1..];
        dropped := dropped + 1;
        k := k + 1;
      }
    }

    method TickOnce() returns (delivered: bool)
      modifies this
      ensures Model() == Tick(old(Model())) && out == old(out) + Output(old(Model()), TickE)
      ensures delivered == (old(queue) != [])
    {
      ticks := ticks + 1;
      if queue == [] {
        underruns := underruns + 1;
        return false;
      }
      var buf := queue[0];
      queue := queue[1..];
      out := out + [buf];
      sent := sent + 1;
      delivered := true;
    }

    method ClearAll() returns (n: nat)
      modifies this
      ensures Model() == Clear(old(Model())) && out == old(out) && n == |old(queue)|
    {
      n := |queue|;
      if n > 0 {
        queue := [];
        dropped := dropped + n;
      }
    }
  }
}
