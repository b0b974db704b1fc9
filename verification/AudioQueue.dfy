/** The bounded audio queue (backend/rtc_bridge/bounded_audio_queue.py): budgets on frames, bytes and
    age, oldest dropped first. Times are seconds on one clock. */
module AudioQueue {
  import opened FrameBuffer

  /** A queued frame. `reply` numbers the reply it belongs to, 0 when unknown. */
  datatype Entry = Entry(payload: Bytes, generation: nat, createdAt: real, reply: nat, frameSeq: int, srcSeq: int)

  function SizeOf(e: Entry): nat { |e.payload| }

  datatype Queue = Queue(
    maxFrames: nat, maxBytes: nat, maxAgeMs: nat, entries: seq<Entry>, generation: nat,
    highWatermark: nat, drops: nat, backpressure: nat, enqueued: nat, ageDropped: nat, flushDropped: nat, pops: nat)

  function New(maxFrames: nat, maxBytes: nat, maxAgeMs: nat): Queue {
    Queue(maxFrames, maxBytes, maxAgeMs, [], 0, 0, 0, 0, 0, 0, 0, 0)
  }

  function TotalBytes(entries: seq<Entry>): nat {
    if entries == [] then 0 else SizeOf(entries[0]) + TotalBytes(entries[1..])
  }

  predicate Expired(e: Entry, now: real, maxAgeMs: nat) {
    (now - e.createdAt) * 1000.0 > maxAgeMs as real
  }

  /** How many entries the expiry scan removes: it stops at the first young one. */
  function ExpiredHead(entries: seq<Entry>, now: real, maxAgeMs: nat): nat {
    if entries == [] || !Expired(entries[0], now, maxAgeMs) then 0
    else 1 + ExpiredHead(entries[1..], now, maxAgeMs)
  }

  lemma {:induction false} HeadIsWithin(entries: seq<Entry>, now: real, maxAgeMs: nat)
    ensures ExpiredHead(entries, now, maxAgeMs) <= |entries|
  {
    if entries != [] { HeadIsWithin(entries[1..], now, maxAgeMs); }
  }

  function DropExpired(q: Queue, now: real): Queue {
    var k := ExpiredHead(q.entries, now, q.maxAgeMs);
    HeadIsWithin(q.entries, now, q.maxAgeMs);
    q.(entries := q.entries[k..], drops := q.drops + k, ageDropped := q.ageDropped + k)
  }

  /** The entries leave room for one more of `size` bytes. */
  predicate Fits(q: Queue, entries: seq<Entry>, size: nat) {
    |entries| < q.maxFrames && TotalBytes(entries) + size <= q.maxBytes
  }

  /** How many entries overload removes, oldest first. */
  function Evicted(q: Queue, entries: seq<Entry>, size: nat): nat {
    if entries == [] || Fits(q, entries, size) then 0 else 1 + Evicted(q, entries[1..], size)
  }

  lemma {:induction false} EvictedIsWithin(q: Queue, entries: seq<Entry>, size: nat)
    ensures Evicted(q, entries, size) <= |entries|
  {
    if entries != [] { EvictedIsWithin(q, entries[1..], size); }
  }

  function Accepts(q: Queue, e: Entry): bool { SizeOf(e) <= q.maxBytes }

  function Push(q0: Queue, now: real, e: Entry): Queue {
    var q := DropExpired(q0, now);
    if !Accepts(q, e) then q.(drops := q.drops + 1, backpressure := q.backpressure + 1)
    else
      var k := Evicted(q, q.entries, SizeOf(e));
      EvictedIsWithin(q, q.entries, SizeOf(e));
      var kept := q.entries[k..] + [e];
      q.(entries := kept, drops := q.drops + k, backpressure := q.backpressure + k, enqueued := q.enqueued + 1,
         highWatermark := if |kept| > q.highWatermark then |kept| else q.highWatermark)
  }

  /** The queue after a pop; the popped entry is the head of the unexpired ones, if any. */
  function Pop(q0: Queue, now: real): Queue {
    var q := DropExpired(q0, now);
    if q.entries == [] then q else q.(entries := q.entries[1..], pops := q.pops + 1)
  }

  function Flush(q: Queue): Queue {
    q.(entries := [], flushDropped := q.flushDropped + |q.entries|)
  }

  function NotOf(entries: seq<Entry>, generation: nat): seq<Entry> {
    if entries == [] then []
    else (if entries[0].generation != generation then [entries[0]] else []) + NotOf(entries[1..], generation)
  }

  function FlushGeneration(q: Queue, generation: nat): Queue {
    var kept := NotOf(q.entries, generation);
    NotOfIsShorter(q.entries, generation);
    q.(entries := kept, flushDropped := q.flushDropped + (|q.entries| - |kept|))
  }

  lemma {:induction false} NotOfIsShorter(entries: seq<Entry>, generation: nat)
    ensures |NotOf(entries, generation)| <= |entries|
  {
    if entries != [] { NotOfIsShorter(entries[1..], generation); }
  }

  function Bump(q: Queue): Queue {
    var flushed := Flush(q);
    flushed.(generation := flushed.generation + 1)
  }

  /** A push drops some of the oldest entries and may append the new one. */
  lemma {:induction false} PushIsDropAndAppend(q: Queue, now: real, e: Entry) returns (k: nat)
    ensures k <= |q.entries|
    ensures Push(q, now, e).entries == q.entries[k..] || Push(q, now, e).entries == q.entries[k..] + [e]
  {
    HeadIsWithin(q.entries, now, q.maxAgeMs);
    var d := DropExpired(q, now);
    k := ExpiredHead(q.entries, now, q.maxAgeMs);
    if Accepts(d, e) {
      EvictedIsWithin(d, d.entries, SizeOf(e));
      var j := Evicted(d, d.entries, SizeOf(e));
      assert d.entries[j..] == q.entries[k + j..];
      k := k + j;
    }
  }

  // ---------- runs ----------

  datatype QueueEvent =
    | PushE(now: real, entry: Entry)
    | PopE(now: real)
    | FlushE
    | FlushGenerationE(generation: nat)
    | BumpE

  function ApplyQueue(q: Queue, e: QueueEvent): Queue {
    match e
    case PushE(now, entry) => Push(q, now, entry)
    case PopE(now) => Pop(q, now)
    case FlushE => Flush(q)
    case FlushGenerationE(g) => FlushGeneration(q, g)
    case BumpE => Bump(q)
  }

  function RunQueue(q: Queue, events: seq<QueueEvent>): Queue
    decreases |events|
  {
    if events == [] then q else RunQueue(ApplyQueue(q, events[0]), events[1..])
  }

  function PushCalls(events: seq<QueueEvent>): nat {
    if events == [] then 0 else (if events[0].PushE? then 1 else 0) + PushCalls(events[1..])
  }

  /** The clock of a run never goes back, and an entry is stamped with the time of its push. */
  ghost predicate OnTime(events: seq<QueueEvent>, last: real)
    decreases |events|
  {
    events == [] ||
    match events[0]
    case PushE(now, entry) => now >= last && entry.createdAt == now && OnTime(events[1..], now)
    case PopE(now) => now >= last && OnTime(events[1..], now)
    case _ => OnTime(events[1..], last)
  }

  // ---------- what a run keeps ----------

  ghost predicate Budgets(q: Queue) {
    && |q.entries| <= q.maxFrames && TotalBytes(q.entries) <= q.maxBytes
    && |q.entries| <= q.highWatermark <= q.maxFrames
    && q.drops == q.backpressure + q.ageDropped
  }

  function Accounted(q: Queue): nat {
    |q.entries| + q.pops + q.drops + q.flushDropped
  }

  lemma {:induction false} SuffixWeighsLess(entries: seq<Entry>, k: nat)
    requires k <= |entries|
    ensures TotalBytes(entries[k..]) <= TotalBytes(entries)
  {
    if k > 0 {
      SuffixWeighsLess(entries[1..], k - 1);
      assert entries[k..] == entries[1..][k - 1..];
    }
  }

  lemma {:induction false} TotalOfAppend(a: seq<Entry>, e: Entry)
    ensures TotalBytes(a + [e]) == TotalBytes(a) + SizeOf(e)
  {
    if a != [] {
      TotalOfAppend(a[1..], e);
      assert (a + [e])[1..] == a[1..] + [e];
    }
  }

  /** Eviction stops as soon as the rest fits, and not before. */
  lemma {:induction false} EvictionStops(q: Queue, entries: seq<Entry>, size: nat)
    requires q.maxFrames > 0 && size <= q.maxBytes
    ensures Evicted(q, entries, size) <= |entries|
    ensures Fits(q, entries[Evicted(q, entries, size)..], size)
    ensures forall j :: 0 <= j < Evicted(q, entries, size) ==> !Fits(q, entries[j..], size)
  {
    if entries != [] && !Fits(q, entries, size) {
      EvictionStops(q, entries[1..], size);
      var k := Evicted(q, entries[1..], size);
      assert entries[1 + k..] == entries[1..][k..];
      forall j | 0 < j < 1 + k ensures !Fits(q, entries[j..], size) {
        assert entries[j..] == entries[1..][j - 1..];
      }
      assert entries[0..] == entries;
    } else {
      assert entries[0..] == entries;
    }
  }

  lemma {:induction false} NotOfWeighsLess(entries: seq<Entry>, generation: nat)
    ensures TotalBytes(NotOf(entries, generation)) <= TotalBytes(entries)
  {
    if entries != [] {
      NotOfWeighsLess(entries[1..], generation);
      assert ([entries[0]] + NotOf(entries[1..], generation))[1..] == NotOf(entries[1..], generation);
      assert [] + NotOf(entries[1..], generation) == NotOf(entries[1..], generation);
    }
  }

  lemma StepAccounts(q: Queue, e: QueueEvent)
    requires q.maxFrames > 0 && Budgets(q)
    ensures var q' := ApplyQueue(q, e);
            && Budgets(q') && q'.maxFrames == q.maxFrames
            && Accounted(q') == Accounted(q) + if e.PushE? then 1 else 0
  {
    if e.PushE? || e.PopE? {
      HeadIsWithin(q.entries, e.now, q.maxAgeMs);
      SuffixWeighsLess(q.entries, ExpiredHead(q.entries, e.now, q.maxAgeMs));
    }
    match e
    case PushE(now, entry) =>
      var d := DropExpired(q, now);
      if Accepts(d, entry) {
        EvictionStops(d, d.entries, SizeOf(entry));
        TotalOfAppend(d.entries[Evicted(d, d.entries, SizeOf(entry))..], entry);
      }
    case PopE(now) =>
      var d := DropExpired(q, now);
      if d.entries != [] { SuffixWeighsLess(d.entries, 1); }
    case FlushGenerationE(g) =>
      NotOfIsShorter(q.entries, g);
      NotOfWeighsLess(q.entries, g);
    case _ =>
  }

  lemma {:induction false} RunAccounts(q: Queue, events: seq<QueueEvent>)
    requires q.maxFrames > 0 && Budgets(q)
    ensures Budgets(RunQueue(q, events)) && Accounted(RunQueue(q, events)) == Accounted(q) + PushCalls(events)
    decreases |events|
  {
    if events != [] {
      StepAccounts(q, events[0]);
      RunAccounts(ApplyQueue(q, events[0]), events[1..]);
    }
  }

  /** Every push call is accounted for: still queued, popped, dropped or flushed. Drops are overload
      or age, and the high watermark never exceeds the frame budget. */
  lemma DropAccountingIsExact(maxFrames: nat, maxBytes: nat, maxAgeMs: nat, events: seq<QueueEvent>)
    requires maxFrames > 0
    ensures var q := RunQueue(New(maxFrames, maxBytes, maxAgeMs), events);
            && PushCalls(events) == |q.entries| + q.pops + q.drops + q.flushDropped
            && q.drops == q.backpressure + q.ageDropped
            && |q.entries| <= q.highWatermark <= maxFrames
            && TotalBytes(q.entries) <= maxBytes
  {
    RunAccounts(New(maxFrames, maxBytes, maxAgeMs), events);
    RunKeepsBudgets(New(maxFrames, maxBytes, maxAgeMs), events);
  }

  lemma {:induction false} RunKeepsBudgets(q: Queue, events: seq<QueueEvent>)
    ensures RunQueue(q, events).maxFrames == q.maxFrames && RunQueue(q, events).maxBytes == q.maxBytes
    ensures RunQueue(q, events).maxAgeMs == q.maxAgeMs
    decreases |events|
  {
    if events != [] { RunKeepsBudgets(ApplyQueue(q, events[0]), events[1..]); }
  }

  // ---------- age order ----------

  ghost predicate ByAge(entries: seq<Entry>, last: real) {
    && (forall i, j :: 0 <= i <= j < |entries| ==> entries[i].createdAt <= entries[j].createdAt)
    && (forall i :: 0 <= i < |entries| ==> entries[i].createdAt <= last)
  }

  function Unexpired(entries: seq<Entry>, now: real, maxAgeMs: nat): seq<Entry> {
    if entries == [] then []
    else (if Expired(entries[0], now, maxAgeMs) then [] else [entries[0]]) + Unexpired(entries[1..], now, maxAgeMs)
  }

  /** Scanning only the head is as good as filtering the whole queue by age. */
  lemma {:induction false} HeadScanFilters(entries: seq<Entry>, now: real, maxAgeMs: nat, last: real)
    requires ByAge(entries, last)
    ensures ExpiredHead(entries, now, maxAgeMs) <= |entries|
    ensures entries[ExpiredHead(entries, now, maxAgeMs)..] == Unexpired(entries, now, maxAgeMs)
  {
    if entries != [] {
      if Expired(entries[0], now, maxAgeMs) {
        HeadScanFilters(entries[1..], now, maxAgeMs, last);
        var k := ExpiredHead(entries[1..], now, maxAgeMs);
        assert entries[1 + k..] == entries[1..][k..];
        assert [] + Unexpired(entries[1..], now, maxAgeMs) == Unexpired(entries[1..], now, maxAgeMs);
      } else {
        forall i | 0 <= i < |entries| ensures !Expired(entries[i], now, maxAgeMs) {
          LaterIsYounger(entries[0], entries[i], now, maxAgeMs);
        }
        AllYoung(entries, now, maxAgeMs);
      }
    }
  }

  lemma LaterIsYounger(a: Entry, b: Entry, now: real, maxAgeMs: nat)
    requires a.createdAt <= b.createdAt && !Expired(a, now, maxAgeMs)
    ensures !Expired(b, now, maxAgeMs)
  {
  }

  lemma {:induction false} AllYoung(entries: seq<Entry>, now: real, maxAgeMs: nat)
    requires forall i :: 0 <= i < |entries| ==> !Expired(entries[i], now, maxAgeMs)
    ensures Unexpired(entries, now, maxAgeMs) == entries
  {
    if entries != [] {
      AllYoung(entries[1..], now, maxAgeMs);
      assert entries == [entries[0]] + entries[1..];
    }
  }

  function TimeAfter(e: QueueEvent, last: real): real {
    if e.PushE? || e.PopE? then e.now else last
  }

  lemma {:induction false} NotOfByAge(entries: seq<Entry>, generation: nat, last: real)
    requires ByAge(entries, last)
    ensures ByAge(NotOf(entries, generation), last)
    ensures entries != [] ==> NotBefore(NotOf(entries, generation), entries[0].createdAt)
  {
    if entries != [] {
      TailByAge(entries, last);
      NotOfByAge(entries[1..], generation, last);
      hide NotOf, ByAge;
      var rest := NotOf(entries[1..], generation);
      if |entries| == 1 { assert NotOf([], generation) == []; }
      EarlierBound(rest, entries);
      ConsByAge(entries[0], rest, last);
      NotOfHead(entries, generation);
    }
  }

  lemma NotOfHead(entries: seq<Entry>, generation: nat)
    requires entries != []
    ensures var rest := NotOf(entries[1..], generation);
      NotOf(entries, generation) == rest || NotOf(entries, generation) == [entries[0]] + rest
  {
    assert [] + NotOf(entries[1..], generation) == NotOf(entries[1..], generation);
  }

  lemma TailByAge(entries: seq<Entry>, last: real)
    requires entries != [] && ByAge(entries, last)
    ensures ByAge(entries[1..], last) && entries[0].createdAt <= last
    ensures |entries| > 1 ==> entries[0].createdAt <= entries[1..][0].createdAt
  {
    assert forall i :: 0 <= i < |entries[1..]| ==> entries[1..][i] == entries[i + 1];
  }

  lemma EarlierBound(rest: seq<Entry>, entries: seq<Entry>)
    requires entries != [] && (|entries| == 1 ==> rest == [])
    requires |entries| > 1 ==> NotBefore(rest, entries[1..][0].createdAt)
    requires |entries| > 1 ==> entries[0].createdAt <= entries[1..][0].createdAt
    ensures NotBefore(rest, entries[0].createdAt)
  {
  }

  ghost predicate NotBefore(entries: seq<Entry>, time: real) {
    forall i :: 0 <= i < |entries| ==> time <= entries[i].createdAt
  }

  lemma ConsByAge(e: Entry, rest: seq<Entry>, last: real)
    requires ByAge(rest, last) && NotBefore(rest, e.createdAt) && e.createdAt <= last
    ensures ByAge([e] + rest, last) && NotBefore([e] + rest, e.createdAt) && [] + rest == rest
  {
    var all := [e] + rest;
    forall i | 0 <= i < |all| ensures e.createdAt <= all[i].createdAt <= last {
      if i > 0 { assert all[i] == rest[i - 1]; }
    }
    forall i, j | 0 <= i <= j < |all| ensures all[i].createdAt <= all[j].createdAt {
      if i > 0 { assert all[i] == rest[i - 1] && all[j] == rest[j - 1]; }
    }
  }

  lemma StepByAge(q: Queue, e: QueueEvent, last: real)
    requires ByAge(q.entries, last) && OnTime([e], last)
    ensures ByAge(ApplyQueue(q, e).entries, TimeAfter(e, last))
  {
    match e
    case PushE(now, entry) =>
      DropByAge(q, now, last);
      var d := DropExpired(q, now);
      if Accepts(d, entry) {
        EvictedIsWithin(d, d.entries, SizeOf(entry));
        SuffixByAge(d.entries, Evicted(d, d.entries, SizeOf(entry)), now);
        AppendByAge(d.entries[Evicted(d, d.entries, SizeOf(entry))..], entry);
      }
    case PopE(now) =>
      DropByAge(q, now, last);
      if DropExpired(q, now).entries != [] { SuffixByAge(DropExpired(q, now).entries, 1, now); }
    case FlushGenerationE(g) => NotOfByAge(q.entries, g, last);
    case _ =>
  }

  lemma SuffixByAge(entries: seq<Entry>, k: nat, last: real)
    requires ByAge(entries, last) && k <= |entries|
    ensures ByAge(entries[k..], last)
  {
    assert forall i :: 0 <= i < |entries[k..]| ==> entries[k..][i] == entries[k + i];
  }

  lemma AppendByAge(entries: seq<Entry>, e: Entry)
    requires ByAge(entries, e.createdAt)
    ensures ByAge(entries + [e], e.createdAt)
  {
  }

  lemma DropByAge(q: Queue, now: real, last: real)
    requires ByAge(q.entries, last) && last <= now
    ensures ByAge(DropExpired(q, now).entries, now)
  {
    HeadIsWithin(q.entries, now, q.maxAgeMs);
    SuffixByAge(q.entries, ExpiredHead(q.entries, now, q.maxAgeMs), last);
  }

  lemma {:induction false} RunByAge(q: Queue, events: seq<QueueEvent>, last: real) returns (now: real)
    requires ByAge(q.entries, last) && OnTime(events, last)
    ensures ByAge(RunQueue(q, events).entries, now)
    decreases |events|
  {
    now := last;
    if events != [] {
      StepByAge(q, events[0], last);
      now := RunByAge(ApplyQueue(q, events[0]), events[1..], TimeAfter(events[0], last));
    }
  }

  /** Overload handling is optimal. After an accepted push the queue holds the longest suffix of its
      unexpired entries that fits both budgets together with the new entry, then the new entry. */
  lemma EvictionIsOptimal(maxFrames: nat, maxBytes: nat, maxAgeMs: nat, events: seq<QueueEvent>, start: real,
        now: real, e: Entry)
    returns (k: nat)
    requires maxFrames > 0 && OnTime(events, start) && |e.payload| <= maxBytes
    ensures var q := RunQueue(New(maxFrames, maxBytes, maxAgeMs), events);
            var young := Unexpired(q.entries, now, maxAgeMs);
            && k <= |young|
            && Push(q, now, e).entries == young[k..] + [e]
            && Fits(q, young[k..], SizeOf(e))
            && forall j :: 0 <= j < k ==> !Fits(q, young[j..], SizeOf(e))
  {
    var q := RunQueue(New(maxFrames, maxBytes, maxAgeMs), events);
    RunKeepsBudgets(New(maxFrames, maxBytes, maxAgeMs), events);
    var last := RunByAge(New(maxFrames, maxBytes, maxAgeMs), events, start);
    HeadScanFilters(q.entries, now, maxAgeMs, last);
    var d := DropExpired(q, now);
    EvictionStops(d, d.entries, SizeOf(e));
    k := Evicted(d, d.entries, SizeOf(e));
    assert forall s :: Fits(q, s, SizeOf(e)) == Fits(d, s, SizeOf(e));
  }

  // ---------- every operation, by lengths and ages ----------

  /** Too old to be played: older than the age limit, in seconds. */
  lemma ExpiredMeansOlder(e: Entry, now: real, maxAgeMs: nat)
    ensures Expired(e, now, maxAgeMs) <==> now - e.createdAt > maxAgeMs as real / 1000.0
  {
  }

  lemma {:induction false} UnexpiredAreTheYoung(entries: seq<Entry>, now: real, maxAgeMs: nat, e: Entry)
    ensures e in Unexpired(entries, now, maxAgeMs)
      <==> e in entries && now - e.createdAt <= maxAgeMs as real / 1000.0
  {
    ExpiredMeansOlder(e, now, maxAgeMs);
    if entries != [] {
      UnexpiredAreTheYoung(entries[1..], now, maxAgeMs, e);
      assert e in entries <==> e == entries[0] || e in entries[1..];
      var head := if Expired(entries[0], now, maxAgeMs) then [] else [entries[0]];
      assert Unexpired(entries, now, maxAgeMs) == head + Unexpired(entries[1..], now, maxAgeMs);
    }
  }

  lemma {:induction false} NotOfAppends(a: seq<Entry>, b: seq<Entry>, generation: nat)
    ensures NotOf(a + b, generation) == NotOf(a, generation) + NotOf(b, generation)
  {
    if a == [] {
      assert [] + b == b && NotOf([], generation) == [];
    } else {
      NotOfAppends(a[1..], b, generation);
      assert (a + b)[1..] == a[1..] + b && (a + b)[0] == a[0];
    }
  }

  /** Flushing a generation keeps exactly the entries of the others: piece by piece, in their order. */
  lemma {:induction false} FlushKeepsTheOthers(entries: seq<Entry>, generation: nat, e: Entry)
    ensures e in NotOf(entries, generation) <==> e in entries && e.generation != generation
    ensures NotOf([e], generation) == if e.generation == generation then [] else [e]
  {
    assert [e][1..] == [] && NotOf([], generation) == [];
    if entries != [] {
      FlushKeepsTheOthers(entries[1..], generation, e);
      NotOfHead(entries, generation);
      assert e in entries <==> e == entries[0] || e in entries[1..];
      var head := if entries[0].generation != generation then [entries[0]] else [];
      assert NotOf(entries, generation) == head + NotOf(entries[1..], generation);
    }
  }

  lemma YoungAfter(maxFrames: nat, maxBytes: nat, maxAgeMs: nat, events: seq<QueueEvent>, start: real, now: real)
    requires OnTime(events, start)
    ensures var q := RunQueue(New(maxFrames, maxBytes, maxAgeMs), events);
      && DropExpired(q, now).entries == Unexpired(q.entries, now, maxAgeMs)
      && q.maxFrames == maxFrames && q.maxBytes == maxBytes && q.maxAgeMs == maxAgeMs
      && DropExpired(q, now).ageDropped == q.ageDropped + |q.entries| - |Unexpired(q.entries, now, maxAgeMs)|
      && DropExpired(q, now) == q.(entries := DropExpired(q, now).entries, drops := DropExpired(q, now).drops,
                                   ageDropped := DropExpired(q, now).ageDropped)
  {
    var q := RunQueue(New(maxFrames, maxBytes, maxAgeMs), events);
    RunKeepsBudgets(New(maxFrames, maxBytes, maxAgeMs), events);
    var last := RunByAge(New(maxFrames, maxBytes, maxAgeMs), events, start);
    HeadScanFilters(q.entries, now, maxAgeMs, last);
  }

  /** After any timed run a pop returns the oldest entry that is still young and leaves the young ones after it; a
      payload beyond the byte budget is refused, and then only the expired are gone. */
  lemma PopTakesTheOldestYoung(maxFrames: nat, maxBytes: nat, maxAgeMs: nat, events: seq<QueueEvent>, start: real,
        now: real, e: Entry)
    requires OnTime(events, start)
    ensures var q := RunQueue(New(maxFrames, maxBytes, maxAgeMs), events);
            var young := Unexpired(q.entries, now, maxAgeMs);
            && Pop(q, now).entries == (if young == [] then [] else young[1..])
            && DropExpired(q, now).entries == young
            && (|e.payload| > maxBytes ==> Push(q, now, e).entries == young)
  {
    YoungAfter(maxFrames, maxBytes, maxAgeMs, events, start, now);
  }

  function Max(a: nat, b: nat): nat { if a > b then a else b }

  /** What each operation adds to each counter, after any timed run. */
  lemma CountersTellTheirEvents(maxFrames: nat, maxBytes: nat, maxAgeMs: nat, events: seq<QueueEvent>, start: real,
        e: QueueEvent)
    requires maxFrames > 0 && OnTime(events, start)
    ensures var q := RunQueue(New(maxFrames, maxBytes, maxAgeMs), events);
            var t := ApplyQueue(q, e);
            var timed := e.PushE? || e.PopE?;
            var young := if timed then |Unexpired(q.entries, e.now, maxAgeMs)| else 0;
            var accepts := e.PushE? && |e.entry.payload| <= maxBytes;
            && t.enqueued == q.enqueued + (if accepts then 1 else 0)
            && t.pops == q.pops + (if e.PopE? && young > 0 then 1 else 0)
            && t.ageDropped == q.ageDropped + (if timed then |q.entries| - young else 0)
            && t.backpressure == q.backpressure + (if accepts then young + 1 - |t.entries|
                                                   else if e.PushE? then 1 else 0)
            && t.flushDropped == q.flushDropped + (if timed then 0 else |q.entries| - |t.entries|)
            && t.highWatermark == (if accepts then Max(q.highWatermark, |t.entries|) else q.highWatermark)
            && t.generation == q.generation + (if e.BumpE? then 1 else 0)
            && (e.FlushE? || e.BumpE? ==> t.entries == [])
  {
    var q := RunQueue(New(maxFrames, maxBytes, maxAgeMs), events);
    if e.PushE? {
      YoungAfter(maxFrames, maxBytes, maxAgeMs, events, start, e.now);
      var d := DropExpired(q, e.now);
      EvictedIsWithin(d, d.entries, SizeOf(e.entry));
    } else if e.PopE? {
      YoungAfter(maxFrames, maxBytes, maxAgeMs, events, start, e.now);
    } else if e.FlushGenerationE? {
      NotOfIsShorter(q.entries, e.generation);
    }
    hide RunQueue, DropExpired, Unexpired, OnTime, Evicted, NotOf;
  }
}
