/** The shaper object (backend/rtc_bridge/shaper.py): a frame buffer, a bounded queue and the variables
    of its pacing coroutine, changed in place and proved against the shaper functions. */
module DownlinkShaper {
  import opened Outcomes
  import opened FrameBuffer
  import opened AudioQueue
  import Q = AudioQueue
  import S = Shaper
  import opened BoundedAudioQueue

  lemma {:induction false} PushAllAppend(q: Queue, now: real, es: seq<Entry>, e: Entry)
    ensures S.PushAll(q, now, es + [e]) == Q.Push(S.PushAll(q, now, es), now, e)
    decreases |es|
  {
    if es == [] {
      assert [] + [e] == [e] && [e][1..] == [];
    } else {
      PushAllAppend(Q.Push(q, now, es[0]), now, es[1..], e);
      assert (es + [e])[1..] == es[1..] + [e];
    }
  }

  lemma PushOneMore(q: Queue, now: real, es: seq<Entry>, i: nat)
    requires i < |es|
    ensures S.PushAll(q, now, es[..i + 1]) == Q.Push(S.PushAll(q, now, es[..i]), now, es[i])
  {
    assert es[..i + 1] == es[..i] + [es[i]];
    PushAllAppend(q, now, es[..i], es[i]);
  }

  class DownlinkShaper {
    const frameS: real
    const buffer: PcmFrameBuffer
    const q: BoundedAudioQueue
    var replyId: nat
    var frameSeq: nat
    // the variables of `_run` between two awaits
    var held: Option<S.Held>
    var t0: Option<real>
    var n: nat

    ghost predicate Valid()
      reads this, buffer
    {
      buffer.Valid() && !buffer.padTail
    }

    ghost function Model(): S.Shaper
      reads this, buffer, q
    {
      S.Shaper(buffer.frameBytes, frameS, buffer.buf, q.Model(), replyId, frameSeq, held, t0, n)
    }

    constructor (frameBytes: nat, frameS: real, maxFrames: nat, maxBytes: nat, maxFrameAgeMs: nat)
      requires frameBytes > 0 && maxFrames > 0 && maxBytes > 0 && maxFrameAgeMs > 0
      ensures Valid() && fresh(buffer) && fresh(q)
      ensures Model() == S.Start(frameBytes, frameS, New(maxFrames, maxBytes, maxFrameAgeMs))
    {
      this.frameS := frameS;
      buffer := new PcmFrameBuffer(frameBytes, false);
      q := new BoundedAudioQueue(maxFrames, maxBytes, maxFrameAgeMs);
      replyId, frameSeq, held, t0, n := 0, 0, None, None, 0;
    }

    method BeginReply(reply: nat)
      requires Valid()
      modifies this
      ensures Valid() && Model() == S.BeginReply(old(Model()), reply)
    {
      replyId := reply;
      frameSeq := 0;
    }

    method Push(now: real, pcm: Bytes, srcSeq: int)
      requires Valid()
      modifies this, buffer, q
      ensures Valid() && Model() == S.Push(old(Model()), now, pcm, srcSeq)
    {
      ghost var before := Model();
      ghost var cut := S.CutBy(before, now, pcm, srcSeq);
      var frames := buffer.Feed(pcm, srcSeq);
      assert cut[..0] == [] && S.PushAll(before.queue, now, []) == before.queue;
      hide S.PushAll, Q.Push, Frames, Residue;
      for i := 0 to |frames|
        invariant Valid() && buffer.buf == Residue(before.buf + pcm, before.frameBytes)
        invariant replyId == before.reply && held == before.held && t0 == before.t0 && n == before.n
        invariant q.generation == before.queue.generation
        invariant frameSeq == before.frameSeq + i
        invariant q.Model() == S.PushAll(before.queue, now, cut[..i])
      {
        var entry := Entry(frames[i], q.generation, now, replyId, frameSeq, srcSeq);
        assert entry == cut[i];
        frameSeq := frameSeq + 1;
        PushOneMore(before.queue, now, cut, i);
        var _ := q.Push(now, entry);
      }
      assert cut[..|frames|] == cut;
    }

    method Reset()
      requires Valid()
      modifies buffer, q
      ensures Valid() && Model() == S.Reset(old(Model()))
    {
      var _ := q.Flush();
      buffer.Reset();
    }

    /** `_run` from one await to the next: pop, keep the absolute schedule, decide how long to sleep. */
    method TakeNext(now: real)
      requires Valid() && held == None
      modifies this, q
      ensures Valid() && Model() == S.Take(old(Model()), now)
    {
      var popped := q.Pop(now);
      if popped == [] {
        t0 := None;
        n := 0;
        return;
      }
      if t0 == None {
        t0 := Some(now);
        n := 0;
      }
      var target := t0.value + n as real * frameS;
      n := n + 1;
      var lag := now - target;
      if lag < -0.002 {
        held := Some(S.Held(popped[0], now - lag));
      } else {
        held := Some(S.Held(popped[0], now));
      }
    }

    method SendHeld(now: real) returns (frame: Entry)
      requires Valid() && held.Some? && held.value.wake <= now
      modifies this
      ensures Valid() && Model() == S.Sent(old(Model())) && frame == old(held).value.entry
    {
      frame := held.value.entry;
      held := None;
    }
  }
}
