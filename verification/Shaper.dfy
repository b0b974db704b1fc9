/** The downlink shaper (backend/rtc_bridge/shaper.py): chunks in, frames out at the pace of playback.
    The coroutine `_run` is cut at its awaits: taking an entry from the queue is one step, handing it
    to the socket is another. */
module Shaper {
  import opened Outcomes
  import opened FrameBuffer
  import opened AudioQueue
  import Q = AudioQueue

  /** An entry `_run` has popped, and the time before which it will not be sent. */
  datatype Held = Held(entry: Entry, wake: real)

  datatype Shaper = Shaper(
    frameBytes: nat, frameS: real, buf: Bytes, queue: Queue, reply: nat, frameSeq: nat,
    held: Option<Held>, t0: Option<real>, n: nat)

  function Start(frameBytes: nat, frameS: real, queue: Queue): Shaper {
    Shaper(frameBytes, frameS, [], queue, 0, 0, None, None, 0)
  }

  function BeginReply(s: Shaper, reply: nat): Shaper {
    s.(reply := reply, frameSeq := 0)
  }

  /** The entries that frames become: consecutive frame numbers of the current reply. */
  function Labelled(frames: seq<Bytes>, now: real, generation: nat, reply: nat, frameSeq: nat,
        srcSeq: int): seq<Entry> {
    seq(|frames|, i requires 0 <= i < |frames| => Entry(frames[i], generation, now, reply, frameSeq + i, srcSeq))
  }

  function PushAll(q: Queue, now: real, entries: seq<Entry>): Queue
    decreases |entries|
  {
    if entries == [] then q else PushAll(Q.Push(q, now, entries[0]), now, entries[1..])
  }

  /** What a chunk is cut into. */
  function CutBy(s: Shaper, now: real, pcm: Bytes, srcSeq: int): seq<Entry>
    requires s.frameBytes > 0
  {
    Labelled(Frames(s.buf + pcm, s.frameBytes), now, s.queue.generation, s.reply, s.frameSeq, srcSeq)
  }

  function Push(s: Shaper, now: real, pcm: Bytes, srcSeq: int): Shaper
    requires s.frameBytes > 0
  {
    var cut := CutBy(s, now, pcm, srcSeq);
    s.(buf := Residue(s.buf + pcm, s.frameBytes), frameSeq := s.frameSeq + |cut|, queue := PushAll(s.queue, now, cut))
  }

  function Reset(s: Shaper): Shaper {
    s.(queue := Q.Flush(s.queue), buf := [])
  }

  /** One turn of `_run` up to its next await: absolute schedule t0 + n * frame, a lead of more than
      2 ms is slept off, an empty queue ends the busy period. */
  function Take(s: Shaper, now: real): Shaper
    requires s.held == None
  {
    var young := DropExpired(s.queue, now).entries;
    var queue := Q.Pop(s.queue, now);
    if young == [] then s.(queue := queue, t0 := None, n := 0)
    else
      var t0 := if s.t0 == None then now else s.t0.value;
      var n := if s.t0 == None then 0 else s.n;
      var target := t0 + n as real * s.frameS;
      var wake := if now - target < -0.002 then target else now;
      s.(queue := queue, held := Some(Held(young[0], wake)), t0 := Some(t0), n := n + 1)
  }

  function Sent(s: Shaper): Shaper { s.(held := None) }

  // ---------- the rate of sending ----------

  datatype Event =
    | ReplyE(reply: nat)
    | PushE(now: real, pcm: Bytes, srcSeq: int)
    | ResetE
    | TakeE(now: real)
    | SendE(now: real)

  /** `sleep` never wakes early, and `_run` does one thing at a time. */
  predicate Enabled(s: Shaper, e: Event) {
    match e
    case TakeE(_) => s.held == None
    case SendE(now) => s.held.Some? && s.held.value.wake <= now
    case _ => true
  }

  function Apply(s: Shaper, e: Event): Shaper
    requires s.frameBytes > 0 && Enabled(s, e)
  {
    match e
    case ReplyE(reply) => BeginReply(s, reply)
    case PushE(now, pcm, srcSeq) => Push(s, now, pcm, srcSeq)
    case ResetE => Reset(s)
    case TakeE(now) => Take(s, now)
    case SendE(now) => Sent(s)
  }

  // ---------- what a pop finds ----------

  /** Young enough to be played. */
  predicate Young(e: Entry, now: real, maxAgeMs: nat) {
    (now - e.createdAt) * 1000.0 <= maxAgeMs as real
  }

  ghost predicate FirstYoung(q: Queue, now: real, i: nat) {
    && i < |q.entries| && Young(q.entries[i], now, q.maxAgeMs)
    && forall j :: 0 <= j < i ==> !Young(q.entries[j], now, q.maxAgeMs)
  }

  ghost predicate FindsYoung(q: Queue, now: real) {
    exists i :: FirstYoung(q, now, i)
  }

  lemma {:induction false} HeadScanFinds(entries: seq<Entry>, now: real, maxAgeMs: nat)
    ensures var k := ExpiredHead(entries, now, maxAgeMs);
      && k <= |entries| && (forall j :: 0 <= j < k ==> !Young(entries[j], now, maxAgeMs))
      && (k < |entries| ==> Young(entries[k], now, maxAgeMs))
  {
    if entries != [] && Expired(entries[0], now, maxAgeMs) {
      HeadScanFinds(entries[1..], now, maxAgeMs);
      assert forall j :: 0 < j < |entries| ==> entries[j] == entries[1..][j - 1];
    }
  }

  /** A pop takes the first entry that is still young, whatever came before it goes and the rest stays; when
      there is none the queue is empty afterwards. */
  lemma TakesTheFirstYoung(s: Shaper, now: real, i: nat)
    requires s.held == None
    ensures Take(s, now).held.Some? <==> FindsYoung(s.queue, now)
    ensures FirstYoung(s.queue, now, i) ==>
      && Take(s, now).held.Some? && Take(s, now).held.value.entry == s.queue.entries[i]
      && Take(s, now).queue.entries == s.queue.entries[i + 1..]
    ensures !FindsYoung(s.queue, now) ==> Take(s, now).queue.entries == []
  {
    HeadScanFinds(s.queue.entries, now, s.queue.maxAgeMs);
    var k := ExpiredHead(s.queue.entries, now, s.queue.maxAgeMs);
    if k < |s.queue.entries| {
      assert FirstYoung(s.queue, now, k);
      assert s.queue.entries[k..][1..] == s.queue.entries[k + 1..];
    }
  }

  // ---------- busy periods ----------

  /** History: when the current busy period began, and when its frames were sent. It begins with the first
      pop that finds a young frame after one that found none. No code reads it. */
  datatype Log = Log(start: Option<real>, sends: seq<real>)

  ghost function Record(s: Shaper, e: Event, log: Log): Log
    requires s.frameBytes > 0 && Enabled(s, e)
  {
    if e.SendE? then log.(sends := log.sends + [e.now])
    else if e.TakeE? && !FindsYoung(s.queue, e.now) then Log(None, [])
    else if e.TakeE? && log.start.None? then Log(Some(e.now), [])
    else log
  }

  /** Frame number j of a busy period is due at its start + j * frame. */
  function Slot(start: real, j: nat, frame: real): real {
    start + j as real * frame
  }

  function Due(s: Shaper, j: nat): real
    requires s.t0.Some?
  {
    Slot(s.t0.value, j, s.frameS)
  }

  /** What is due more than 2 ms from now is waited for. */
  function WakeFor(slot: real, now: real): real {
    if slot - now > 0.002 then slot else now
  }

  ghost predicate Paced(s: Shaper, log: Log) {
    && s.t0 == log.start
    && match s.t0
       case None => log.sends == [] && s.held == None
       case Some(_) =>
         && s.n == |log.sends| + (if s.held.Some? then 1 else 0)
         && (forall j :: 0 <= j < |log.sends| ==> log.sends[j] >= Due(s, j) - 0.002)
         && (s.held.Some? ==> s.held.value.wake >= Due(s, s.n - 1) - 0.002)
  }

  lemma TakePaced(s: Shaper, now: real, log: Log)
    requires s.frameBytes > 0 && s.held == None && Paced(s, log)
    ensures Paced(Take(s, now), Record(s, TakeE(now), log))
    ensures FindsYoung(s.queue, now) ==>
      var after := Record(s, TakeE(now), log);
      Take(s, now).held.Some?
      && Take(s, now).held.value.wake == WakeFor(Slot(after.start.value, |after.sends|, s.frameS), now)
  {
    TakesTheFirstYoung(s, now, 0);
    var t := Take(s, now);
    hide FindsYoung, DropExpired, Q.Pop;
    if s.t0.Some? && t.t0.Some? {
      forall j: nat ensures Due(t, j) == Due(s, j) {}
    }
  }

  lemma StepPaced(s: Shaper, e: Event, log: Log)
    requires s.frameBytes > 0 && Enabled(s, e) && Paced(s, log)
    ensures Paced(Apply(s, e), Record(s, e, log))
  {
    if e.TakeE? {
      TakePaced(s, e.now, log);
    } else {
      hide Take, FindsYoung, PushAll, CutBy, Residue;
      var t := Apply(s, e);
      if s.t0.Some? {
        forall j: nat ensures Due(t, j) == Due(s, j) {}
      }
    }
  }

  /** States and logs of a run. */
  ghost predicate IsRun(states: seq<Shaper>, logs: seq<Log>, events: seq<Event>) {
    && |states| == |logs| == |events| + 1
    && states[0].frameBytes > 0
    && forall i :: 0 <= i < |events| ==>
         && states[i].frameBytes > 0 && Enabled(states[i], events[i])
         && states[i + 1] == Apply(states[i], events[i])
         && logs[i + 1] == Record(states[i], events[i], logs[i])
  }

  lemma {:induction false} RunPaced(states: seq<Shaper>, logs: seq<Log>, events: seq<Event>, k: nat)
    requires IsRun(states, logs, events) && Paced(states[0], logs[0]) && k <= |events|
    ensures Paced(states[k], logs[k])
  {
    if k > 0 {
      RunPaced(states, logs, events, k - 1);
      StepPaced(states[k - 1], events[k - 1], logs[k - 1]);
    }
  }

  lemma {:induction false} RunKeepsFrame(states: seq<Shaper>, logs: seq<Log>, events: seq<Event>, k: nat)
    requires IsRun(states, logs, events) && k <= |events|
    ensures states[k].frameS == states[0].frameS
  {
    if k > 0 { RunKeepsFrame(states, logs, events, k - 1); }
  }

  lemma PacedBound(s: Shaper, log: Log, t: real)
    requires Paced(s, log) && log.start.Some? && s.frameS > 0.0 && log.sends != []
    requires forall j :: 0 <= j < |log.sends| ==> log.sends[j] <= t
    ensures |log.sends| <= 1 + ((t - log.start.value + 0.002) / s.frameS).Floor
  {
    var last, span := |log.sends| - 1, t - log.start.value + 0.002;
    assert log.sends[last] >= Due(s, last) - 0.002;
    assert last as real * s.frameS <= span;
    QuotientBound(last, s.frameS, span);
  }

  /** The pacing bound. However late earlier frames ran, by time t a busy period has sent at most
      1 + floor((t - start + 2 ms) / frame) frames. The start is the time of the first pop that found a young
      frame after one that found none, so a long silence earns no credit. */
  lemma SendingRateIsBounded(states: seq<Shaper>, logs: seq<Log>, events: seq<Event>, k: nat, t: real)
    requires IsRun(states, logs, events) && k <= |events|
    requires states[0].t0 == None && states[0].held == None && logs[0] == Log(None, []) && states[0].frameS > 0.0
    requires logs[k].sends != [] && forall j :: 0 <= j < |logs[k].sends| ==> logs[k].sends[j] <= t
    ensures logs[k].start.Some?
    ensures |logs[k].sends| <= 1 + ((t - logs[k].start.value + 0.002) / states[0].frameS).Floor
  {
    RunPaced(states, logs, events, k);
    RunKeepsFrame(states, logs, events, k);
    PacedBound(states[k], logs[k], t);
  }

  /** Nor is a frame held back longer than its slot: the one that a pop finds waits for its slot when that is
      more than 2 ms ahead, and may be sent at once otherwise. */
  lemma SlotsAreExact(states: seq<Shaper>, logs: seq<Log>, events: seq<Event>, k: nat, now: real)
    requires IsRun(states, logs, events) && k <= |events|
    requires states[0].t0 == None && states[0].held == None && logs[0] == Log(None, [])
    requires states[k].held == None && FindsYoung(states[k].queue, now)
    ensures var start := if logs[k].start.None? then now else logs[k].start.value;
      var sent := if logs[k].start.None? then 0 else |logs[k].sends|;
      && Take(states[k], now).held.Some?
      && Take(states[k], now).held.value.wake == WakeFor(Slot(start, sent, states[0].frameS), now)
  {
    RunPaced(states, logs, events, k);
    RunKeepsFrame(states, logs, events, k);
    FrameBytesStay(states, logs, events, k);
    TakePaced(states[k], now, logs[k]);
    TakesTheFirstYoung(states[k], now, 0);
    hide FindsYoung, Take;
  }

  lemma {:induction false} FrameBytesStay(states: seq<Shaper>, logs: seq<Log>, events: seq<Event>, k: nat)
    requires IsRun(states, logs, events) && k <= |events|
    ensures states[k].frameBytes > 0
  {
    if k > 0 { FrameBytesStay(states, logs, events, k - 1); }
  }

  lemma QuotientBound(j: nat, frame: real, span: real)
    requires frame > 0.0 && j as real * frame <= span
    ensures j <= (span / frame).Floor
  {
    var q := span / frame;
    assert q * frame == span;
    if q < j as real {
      ScaleUp(q, j as real, frame);
    }
  }

  lemma ScaleUp(a: real, b: real, factor: real)
    requires a < b && factor > 0.0
    ensures a * factor < b * factor
  {
  }
}
