/** The queue object whose fields push, pop and flush change in place
    (backend/rtc_bridge/bounded_audio_queue.py), proved against the queue functions. */
module BoundedAudioQueue {
  import opened AudioQueue
  import Q = AudioQueue

  /** What eviction leaves. */
  ghost function Kept(q: Queue, entries: seq<Entry>, size: nat): seq<Entry> {
    if entries == [] || Fits(q, entries, size) then entries else Kept(q, entries[1..], size)
  }

  lemma {:induction false} KeptIsTheRest(q: Queue, entries: seq<Entry>, size: nat)
    ensures Evicted(q, entries, size) <= |entries|
    ensures Kept(q, entries, size) == entries[Evicted(q, entries, size)..]
  {
    if entries != [] && !Fits(q, entries, size) {
      KeptIsTheRest(q, entries[1..], size);
      assert entries[1..][Evicted(q, entries[1..], size)..] == entries[Evicted(q, entries, size)..];
    } else {
      assert entries[0..] == entries;
    }
  }

  lemma KeptNext(q: Queue, entries: seq<Entry>, size: nat)
    requires entries != [] && !Fits(q, entries, size)
    ensures Kept(q, entries, size) == Kept(q, entries[1..], size)
  {
  }

  lemma KeptEnds(q: Queue, entries: seq<Entry>, size: nat)
    requires entries == [] || Fits(q, entries, size)
    ensures Kept(q, entries, size) == entries
  {
  }

  class BoundedAudioQueue {
    const maxFrames: nat
    const maxBytes: nat
    const maxFrameAgeMs: nat
    var entries: seq<Entry>
    var generation: nat
    var highWatermark: nat
    var drops: nat
    var backpressureEvents: nat
    var enqueued: nat
    var ageDropped: nat
    var flushDropped: nat
    var pops: nat

    ghost function Model(): Queue
      reads this
    {
      Queue(maxFrames, maxBytes, maxFrameAgeMs, entries, generation, highWatermark, drops,
            backpressureEvents, enqueued, ageDropped, flushDropped, pops)
    }

    constructor (maxFrames: nat, maxBytes: nat, maxFrameAgeMs: nat)
      requires maxFrames > 0 && maxBytes > 0 && maxFrameAgeMs > 0
      ensures Model() == New(maxFrames, maxBytes, maxFrameAgeMs)
    {
      this.maxFrames, this.maxBytes, this.maxFrameAgeMs := maxFrames, maxBytes, maxFrameAgeMs;
      entries := [];
      generation, highWatermark, drops, backpressureEvents := 0, 0, 0, 0;
      enqueued, ageDropped, flushDropped, pops := 0, 0, 0, 0;
    }

    method BytesTotal() returns (total: nat)
      ensures total == TotalBytes(entries)
    {
      total := 0;
      for i := 0 to |entries|
        invariant total + TotalBytes(entries[i..]) == TotalBytes(entries)
      {
        assert entries[i..][1..] == entries[i + 1..];
        total := total + |entries[i].payload|;
      }
    }

    method DropExpiredHead(now: real)
      modifies this
      ensures Model() == DropExpired(old(Model()), now)
    {
      ghost var start := entries;
      ghost var k := 0;
      HeadIsWithin(entries, now, maxFrameAgeMs);
      while entries != [] && (now - entries[0].createdAt) * 1000.0 > maxFrameAgeMs as real
        invariant k <= |start| && entries == start[k..]
        invariant ExpiredHead(start, now, maxFrameAgeMs) == k + ExpiredHead(entries, now, maxFrameAgeMs)
        invariant Model()
                  == old(Model()).(entries := entries, drops := old(drops) + k, ageDropped := old(ageDropped) + k)
        decreases |entries|
      {
        entries := entries[1..];
        drops := drops + 1;
        ageDropped := ageDropped + 1;
        k := k + 1;
      }
    }

    method Push(now: real, entry: Entry) returns (ok: bool)
      requires entry.createdAt == now
      modifies this
      ensures Model() == Q.Push(old(Model()), now, entry)
      ensures ok == (|entry.payload| <= maxBytes)
    {
      DropExpiredHead(now);
      if |entry.payload| > maxBytes {
        drops := drops + 1;
        backpressureEvents := backpressureEvents + 1;
        return false;
      }
      EvictFor(|entry.payload|);
      entries := entries + [entry];
      enqueued := enqueued + 1;
      if |entries| > highWatermark { highWatermark := |entries|; }
      ok := true;
    }

    /** Overload: the oldest entries make room. */
    method EvictFor(size: nat)
      modifies this
      ensures var d := old(Model());
        var k := Evicted(d, d.entries, size);
        k <= |d.entries|
        && Model() == d.(entries := d.entries[k..], drops := d.drops + k, backpressure := d.backpressure + k)
    {
      ghost var d := Model();
      var bytes := BytesTotal();
      KeptIsTheRest(d, d.entries, size);
      hide TotalBytes, Evicted, Kept;
      while entries != [] && (|entries| >= maxFrames || bytes + size > maxBytes)
        invariant bytes == TotalBytes(entries) && |entries| <= |d.entries|
        invariant Kept(d, entries, size) == Kept(d, d.entries, size)
        invariant var k := |d.entries| - |entries|;
          Model() == d.(entries := entries, drops := d.drops + k, backpressure := d.backpressure + k)
        decreases |entries|
      {
        KeptNext(d, entries, size);
        entries := entries[1..];
        drops := drops + 1;
        backpressureEvents := backpressureEvents + 1;
        bytes := BytesTotal();
      }
      KeptEnds(d, entries, size);
    }

    method Pop(now: real) returns (popped: seq<Entry>)
      modifies this
      ensures Model() == Q.Pop(old(Model()), now)
      ensures popped == (var young := DropExpired(old(Model()), now).entries; if young == [] then [] else [young[0]])
    {
      DropExpiredHead(now);
      if entries == [] { return []; }
      popped := [entries[0]];
      entries := entries[1..];
      pops := pops + 1;
    }

    method Flush() returns (dropped: nat)
      modifies this
      ensures Model() == Q.Flush(old(Model())) && dropped == |old(entries)|
    {
      dropped := |entries|;
      entries := [];
      flushDropped := flushDropped + dropped;
    }

    static method Others(all: seq<Entry>, g: nat) returns (kept: seq<Entry>)
      ensures kept == NotOf(all, g)
    {
      kept := [];
      for i := 0 to |all|
        invariant kept + NotOf(all[i..], g) == NotOf(all, g)
      {
        NotOfNext(all, i, g);
        hide NotOf;
        if all[i].generation != g { kept := kept + [all[i]]; }
      }
    }

    static lemma {:induction false} NotOfNext(all: seq<Entry>, i: nat, g: nat)
      requires i < |all|
      ensures var rest := NotOf(all[i + 1..], g);
        NotOf(all[i..], g) == if all[i].generation != g then [all[i]] + rest else rest
    {
      assert all[i..][1..] == all[i + 1..];
    }

    method FlushGeneration(g: nat) returns (dropped: nat)
      modifies this
      ensures Model() == Q.FlushGeneration(old(Model()), g)
      ensures dropped == |old(entries)| - |entries|
    {
      var kept := Others(entries, g);
      NotOfIsShorter(entries, g);
      dropped := |entries| - |kept|;
      entries := kept;
      flushDropped := flushDropped + dropped;
    }

    method BumpGeneration() returns (g: nat)
      modifies this
      ensures Model() == Bump(old(Model())) && g == generation
    {
      var _ := Flush();
      generation := generation + 1;
      g := generation;
    }
  }
}
