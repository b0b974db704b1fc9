/** The key a request is filed under (deploy/trtc-sign/termination-contract.js): when two requests share it. */
module RequestIdentity {
  import opened JsText
  import opened Numerals
  import opened TextDigest
  import opened TerminationContract

  // ---------- the key ----------

  ghost predicate NulFree(t: Text) { NUL !in t }

  lemma NumeralIsNulFree(n: nat)
    ensures NulFree(Numeral(n)) && IsPlain(Numeral(n))
  {
    NumeralUnits(n);
  }

  lemma KeyShape(sid: Text, generation: nat, rid: Text)
    ensures KeyText(sid, generation, rid) == sid + ([NUL] + (Numeral(generation) + ([NUL] + rid)))
  {
  }

  /** Scrubbing a key scrubs its session id and its request id, each by itself. */
  lemma ScrubKey(sid: Text, generation: nat, rid: Text)
    ensures Scrub(KeyText(sid, generation, rid)) == KeyText(Scrub(sid), generation, Scrub(rid))
  {
    hide Scrub, Numeral, KeyText;
    var g := Numeral(generation);
    KeyShape(sid, generation, rid);
    KeyShape(Scrub(sid), generation, Scrub(rid));
    NumeralIsNulFree(generation);
    ScrubSplits(sid, NUL, g + ([NUL] + rid));
    ScrubSplits(g, NUL, rid);
    PlainIsWhole(g);
  }

  /** Keys agree exactly when the texts under them do once unpaired surrogates are replaced. */
  lemma KeysAgree(s1: Text, g1: nat, r1: Text, s2: Text, g2: nat, r2: Text)
    ensures RequestKey(s1, g1, r1) == RequestKey(s2, g2, r2)
      <==> KeyText(Scrub(s1), g1, Scrub(r1)) == KeyText(Scrub(s2), g2, Scrub(r2))
  {
    hide Scrub, KeyText, DigestOf;
    DigestsAgreeIffScrubbedAgree(KeyText(s1, g1, r1), KeyText(s2, g2, r2));
    ScrubKey(s1, g1, r1);
    ScrubKey(s2, g2, r2);
  }

  lemma SameLengthKeysAgree(s1: Text, g1: nat, r1: Text, s2: Text, g2: nat, r2: Text)
    requires |s1| == |s2| && KeyText(s1, g1, r1) == KeyText(s2, g2, r2)
    ensures s1 == s2 && g1 == g2 && r1 == r2
  {
    hide Numeral;
    KeyShape(s1, g1, r1);
    KeyShape(s2, g2, r2);
    Cancel(s1, s2, [NUL] + (Numeral(g1) + ([NUL] + r1)), [NUL] + (Numeral(g2) + ([NUL] + r2)));
    Cancel([NUL], [NUL], Numeral(g1) + ([NUL] + r1), Numeral(g2) + ([NUL] + r2));
    NumeralIsNulFree(g1);
    NumeralIsNulFree(g2);
    SplitAt(NUL, Numeral(g1), Numeral(g2), r1, r2);
    NumeralIsInjective(g1, g2);
  }

  /** The session id ends, up to a separator, in a NUL and the numeral of the generation. */
  ghost predicate Splittable(s: Text, generation: nat) {
    exists head, tail :: SplitsInto(s, head, generation, tail)
  }

  ghost predicate SplitsInto(s: Text, head: Text, generation: nat, tail: Text) {
    s == head + ([NUL] + (Numeral(generation) + tail)) && (tail == [] || tail[0] == NUL)
  }

  /** A longer first part swallows the separator and the NUL-free part after it. */
  lemma {:induction false} LongerSplits(s1: Text, d: Text, r1: Text, s2: Text, r2: Text) returns (tail: Text)
    requires |s1| < |s2| && NulFree(d) && s1 + ([NUL] + (d + ([NUL] + r1))) == s2 + ([NUL] + r2)
    ensures s2 == s1 + ([NUL] + (d + tail)) && (tail == [] || tail[0] == NUL)
  {
    var u := SecondPart(s1, d + ([NUL] + r1), s2, r2);
    NotLonger(NUL, u, d, r2, [NUL] + r1);
    tail := u[|d|..];
    var after := d + ([NUL] + r1);
    assert u == after[..|u|];
    assert u[..|d|] == d;
    assert u == d + tail;
    assert |u| > |d| ==> tail[0] == after[|d|];
  }

  lemma {:induction false} SecondPart(s1: Text, rest: Text, s2: Text, r2: Text) returns (u: Text)
    requires |s1| < |s2| && s1 + ([NUL] + rest) == s2 + ([NUL] + r2)
    ensures s2 == s1 + ([NUL] + u) && rest == u + ([NUL] + r2)
  {
    var t := s2 + ([NUL] + r2);
    u := s2[|s1| + 1..];
    assert t[..|s2|] == s2 && t[..|s1|] == s1 && t[|s1|] == NUL;
    assert s2 == s1 + ([NUL] + u);
    Cancel(s1, s1, [NUL] + rest, [NUL] + (u + ([NUL] + r2)));
    Cancel([NUL], [NUL], rest, u + ([NUL] + r2));
  }

  lemma LongerIsSplittable(s1: Text, g1: nat, r1: Text, s2: Text, g2: nat, r2: Text)
    requires |s1| < |s2| && KeyText(s1, g1, r1) == KeyText(s2, g2, r2)
    ensures Splittable(s2, g1)
  {
    hide Numeral;
    KeyShape(s1, g1, r1);
    KeyShape(s2, g2, r2);
    NumeralIsNulFree(g1);
    var tail := LongerSplits(s1, Numeral(g1), r1, s2, Numeral(g2) + ([NUL] + r2));
    assert SplitsInto(s2, s1, g1, tail);
  }

  /** Whether a session id can be split does not depend on its unpaired surrogates. */
  lemma UnscrubbedSplits(s: Text, generation: nat)
    requires Splittable(Scrub(s), generation)
    ensures Splittable(s, generation)
  {
    hide Numeral, Scrub;
    var t := Scrub(s);
    var head, tail :| SplitsInto(t, head, generation, tail);
    var k, d := |head|, Numeral(generation);
    NumeralUnits(generation);
    forall i | k <= i < k + 1 + |d| ensures s[i] == t[i] {
      ScrubAt(s, i);
      assert t[i] == if i == k then NUL else d[i - k - 1];
    }
    var rest := s[k + 1 + |d|..];
    assert s == s[..k] + ([NUL] + (d + rest));
    if rest != [] {
      ScrubAt(s, k + 1 + |d|);
      assert t[k + 1 + |d|] == tail[0];
    }
    assert SplitsInto(s, s[..k], generation, rest);
  }

  /** The exact condition, for every generation: a request of that generation and a shorter session id is
      filed under the same key if and only if the session id is splittable there. */
  lemma KeyCollidesIffSplittable(sid: Text, generation: nat, rid: Text, other: nat)
    ensures (exists s, r :: |s| < |sid| && RequestKey(s, other, r) == RequestKey(sid, generation, rid))
      <==> Splittable(sid, other)
  {
    hide Numeral, Scrub, RequestKey;
    if s, r :| |s| < |sid| && RequestKey(s, other, r) == RequestKey(sid, generation, rid) {
      KeysAgree(s, other, r, sid, generation, rid);
      LongerIsSplittable(Scrub(s), other, Scrub(r), Scrub(sid), generation, Scrub(rid));
      UnscrubbedSplits(sid, other);
    }
    if Splittable(sid, other) { var s, r := Colliding(sid, generation, rid, other); }
  }

  lemma Colliding(sid: Text, generation: nat, rid: Text, other: nat) returns (s: Text, r: Text)
    requires Splittable(sid, other)
    ensures |s| < |sid| && RequestKey(s, other, r) == RequestKey(sid, generation, rid)
  {
    hide Numeral;
    var head, tail :| SplitsInto(sid, head, other, tail);
    var rest := tail + ([NUL] + (Numeral(generation) + ([NUL] + rid)));
    assert rest == [NUL] + rest[1..];
    s, r := head, rest[1..];
    KeyShape(head, other, r);
    KeyShape(sid, generation, rid);
    assert KeyText(sid, generation, rid) == head + ([NUL] + (Numeral(other) + rest));
  }

  /** Without NUL a session id cannot be split. */
  lemma NulFreeIsUnsplittable(s: Text, generation: nat)
    ensures NulFree(s) ==> !Splittable(s, generation)
  {
    if Splittable(s, generation) {
      var head, tail :| SplitsInto(s, head, generation, tail);
      assert s[|head|] == NUL;
    }
  }

  /** When neither session id can be split at the generation of the other request, as when they hold no NUL,
      two requests are filed under one key exactly when their generations are equal and their ids differ in
      nothing but unpaired surrogates. */
  lemma KeyTellsScrubbedRequestsApart(s1: Text, g1: nat, r1: Text, s2: Text, g2: nat, r2: Text)
    requires !Splittable(s1, g2) && !Splittable(s2, g1)
    ensures RequestKey(s1, g1, r1) == RequestKey(s2, g2, r2)
      <==> Scrub(s1) == Scrub(s2) && g1 == g2 && Scrub(r1) == Scrub(r2)
  {
    hide KeyText, RequestKey, Scrub, Splittable;
    KeysAgree(s1, g1, r1, s2, g2, r2);
    if KeyText(Scrub(s1), g1, Scrub(r1)) == KeyText(Scrub(s2), g2, Scrub(r2)) {
      if |s1| == |s2| {
        SameLengthKeysAgree(Scrub(s1), g1, Scrub(r1), Scrub(s2), g2, Scrub(r2));
      } else if |s1| < |s2| {
        LongerIsSplittable(Scrub(s1), g1, Scrub(r1), Scrub(s2), g2, Scrub(r2));
        UnscrubbedSplits(s2, g1);
      } else {
        LongerIsSplittable(Scrub(s2), g2, Scrub(r2), Scrub(s1), g1, Scrub(r1));
        UnscrubbedSplits(s1, g2);
      }
    }
  }

  // ---------- which requests share their key with another session id ----------

  /** After its separator the request id holds a numeral between two NULs. */
  ghost predicate HoldsNumeral(rid: Text) {
    exists a, g, b :: NumeralAt(rid, a, g, b)
  }

  ghost predicate NumeralAt(rid: Text, a: Text, g: nat, b: Text) {
    [NUL] + rid == a + ([NUL] + (Numeral(g) + ([NUL] + b)))
  }

  /** A longer session id under the same key ends in a part of what follows the shorter one. */
  lemma LongerHoldsNumeral(s1: Text, g1: nat, r1: Text, s2: Text, g2: nat, r2: Text)
    requires |s1| < |s2| && KeyText(s1, g1, r1) == KeyText(s2, g2, r2)
    ensures HoldsNumeral(r1)
  {
    hide Numeral;
    KeyShape(s1, g1, r1);
    KeyShape(s2, g2, r2);
    NumeralIsNulFree(g1);
    var d, rest := Numeral(g1), Numeral(g2) + ([NUL] + r2);
    var tail := LongerSplits(s1, d, r1, s2, rest);
    var head := s1 + ([NUL] + d);
    assert s1 + ([NUL] + (d + ([NUL] + r1))) == head + ([NUL] + r1);
    assert (s1 + ([NUL] + (d + tail))) + ([NUL] + rest) == head + (tail + ([NUL] + rest));
    Cancel(head, head, [NUL] + r1, tail + ([NUL] + rest));
    assert NumeralAt(r1, tail, g2, r2);
  }

  lemma UnscrubbedHolds(rid: Text)
    requires HoldsNumeral(Scrub(rid))
    ensures HoldsNumeral(rid)
  {
    hide Numeral, Scrub;
    var t, u := [NUL] + Scrub(rid), [NUL] + rid;
    var a, g, b :| NumeralAt(Scrub(rid), a, g, b);
    var d, k := Numeral(g), |a|;
    NumeralUnits(g);
    forall i | k <= i < k + |d| + 2 ensures u[i] == t[i] {
      assert t[i] == if i == k || i == k + |d| + 1 then NUL else d[i - k - 1];
      if i > 0 { ScrubAt(rid, i - 1); }
    }
    var rest := u[k + |d| + 2..];
    assert u == u[..k] + ([NUL] + (d + ([NUL] + rest)));
    assert NumeralAt(rid, u[..k], g, rest);
  }

  lemma LongerCollides(sid: Text, generation: nat, rid: Text) returns (s: Text, g: nat, r: Text)
    requires HoldsNumeral(rid)
    ensures |s| > |sid| && RequestKey(s, g, r) == RequestKey(sid, generation, rid)
  {
    hide Numeral, DigestOf;
    var a, g', b :| NumeralAt(rid, a, g', b);
    g, r := g', b;
    s := sid + ([NUL] + (Numeral(generation) + a));
    KeyShape(s, g, r);
    KeyShape(sid, generation, rid);
    var rest := [NUL] + (Numeral(g) + ([NUL] + b));
    assert s + rest == sid + ([NUL] + (Numeral(generation) + (a + rest)));
  }

  /** Some request under another session id, one that differs in more than unpaired surrogates, has its key. */
  ghost predicate SharesItsKey(sid: Text, generation: nat, rid: Text) {
    exists s, g, r :: Scrub(s) != Scrub(sid) && RequestKey(s, g, r) == RequestKey(sid, generation, rid)
  }

  /** The exact condition for one request: it shares its key with one of another session id if and only if its
      own session id can be split at some generation or its request id holds a numeral between NULs. */
  lemma SharesItsKeyIff(sid: Text, generation: nat, rid: Text)
    ensures SharesItsKey(sid, generation, rid) <==> (exists g :: Splittable(sid, g)) || HoldsNumeral(rid)
  {
    hide Numeral, Scrub, RequestKey, Splittable, HoldsNumeral, KeyText;
    if SharesItsKey(sid, generation, rid) {
      var s, g, r :| Scrub(s) != Scrub(sid) && RequestKey(s, g, r) == RequestKey(sid, generation, rid);
      OtherIdSplitsOrHolds(sid, generation, rid, s, g, r);
    }
    if g :| Splittable(sid, g) { var s, r := Colliding(sid, generation, rid, g); }
    if HoldsNumeral(rid) { var s, g, r := LongerCollides(sid, generation, rid); }
  }

  lemma OtherIdSplitsOrHolds(sid: Text, generation: nat, rid: Text, s: Text, g: nat, r: Text)
    requires Scrub(s) != Scrub(sid) && RequestKey(s, g, r) == RequestKey(sid, generation, rid)
    ensures Splittable(sid, g) || HoldsNumeral(rid)
  {
    hide Numeral, Scrub, RequestKey, Splittable, HoldsNumeral, KeyText;
    KeysAgree(s, g, r, sid, generation, rid);
    if |s| == |sid| {
      SameLengthKeysAgree(Scrub(s), g, Scrub(r), Scrub(sid), generation, Scrub(rid));
    } else if |s| < |sid| {
      LongerIsSplittable(Scrub(s), g, Scrub(r), Scrub(sid), generation, Scrub(rid));
      UnscrubbedSplits(sid, g);
    } else {
      LongerHoldsNumeral(Scrub(sid), generation, Scrub(rid), Scrub(s), g, Scrub(r));
      UnscrubbedHolds(rid);
    }
  }

  /** A session id without NUL does not help: a NUL in the request id is enough. */
  lemma NulFreeIdSharesItsKey(generation: nat)
    ensures SharesItsKey([0x61], generation, [0x32, NUL, 0x78])
  {
    assert Numeral(2) == [0x32];
    assert NumeralAt([0x32, NUL, 0x78], [], 2, [0x78]);
    SharesItsKeyIff([0x61], generation, [0x32, NUL, 0x78]);
  }

  // ---------- which request ids have a key of their own ----------

  lemma NoReplacementMeansUnchanged(s: Text)
    requires REPLACEMENT !in Scrub(s)
    ensures Scrub(s) == s
  {
    forall i | 0 <= i < |s| ensures Scrub(s)[i] == s[i] { ScrubAt(s, i); }
  }

  lemma {:induction false} LoneSurrogateIsReplaced(s: Text, i: nat)
    requires IsWhole(s) && i < |s| && s[i] == REPLACEMENT
    ensures Scrub(s[i := 0xD800]) == s
  {
    WholeHead(s);
    var k := HeadLength(s);
    var t := s[i := 0xD800];
    if i < k {
      if |s| > 1 { WholeHead(s[1..]); }
      assert t[1..] == s[1..] && !StartsPair(t);
    } else {
      LoneSurrogateIsReplaced(s[k..], i - k);
      assert t[k..] == s[k..][i - k := 0xD800] && t[..k] == s[..k];
    }
    assert s == s[..k] + s[k..];
  }

  /** Every request id that agrees with this one but for unpaired surrogates is this one. */
  ghost predicate StandsAlone(rid: Text) {
    forall r :: Scrub(r) == Scrub(rid) ==> r == rid
  }

  lemma StandsAloneIff(rid: Text)
    ensures StandsAlone(rid) <==> IsWhole(rid) && REPLACEMENT !in rid
  {
    ScrubIsWhole(rid);
    if IsWhole(rid) && REPLACEMENT !in rid {
      forall r | Scrub(r) == Scrub(rid) ensures r == rid { NoReplacementMeansUnchanged(r); }
    } else if IsWhole(rid) {
      var i :| 0 <= i < |rid| && rid[i] == REPLACEMENT;
      LoneSurrogateIsReplaced(rid, i);
      assert rid[i := 0xD800][i] != rid[i];
    }
  }

  lemma {:induction false} ScrubIsWhole(s: Text)
    ensures IsWhole(Scrub(s))
  {
    Utf8ReadsBack(s);
    Utf8ReadsBack(Scrub(s));
    ScrubbingIsInvisible(s);
  }

  ghost predicate HasItsOwnKey(sid: Text, generation: nat, rid: Text) {
    forall r :: RequestKey(sid, generation, r) == RequestKey(sid, generation, rid) ==> r == rid
  }

  lemma SameSessionKeysAgree(sid: Text, generation: nat, r1: Text, r2: Text)
    ensures RequestKey(sid, generation, r1) == RequestKey(sid, generation, r2) <==> Scrub(r1) == Scrub(r2)
  {
    hide RequestKey, KeyText, Scrub;
    KeysAgree(sid, generation, r1, sid, generation, r2);
    if KeyText(Scrub(sid), generation, Scrub(r1)) == KeyText(Scrub(sid), generation, Scrub(r2)) {
      SameLengthKeysAgree(Scrub(sid), generation, Scrub(r1), Scrub(sid), generation, Scrub(r2));
    }
  }

  /** Within its session and generation a request id has a key of its own exactly when it holds neither an
      unpaired surrogate nor U+FFFD, which stands for all of them. */
  lemma OwnKeyIffNothingToReplace(sid: Text, generation: nat, rid: Text)
    ensures HasItsOwnKey(sid, generation, rid) <==> IsWhole(rid) && REPLACEMENT !in rid
  {
    hide RequestKey, IsWhole, Scrub;
    forall r ensures RequestKey(sid, generation, r) == RequestKey(sid, generation, rid) <==> Scrub(r) == Scrub(rid) {
      SameSessionKeysAgree(sid, generation, r, rid);
    }
    StandsAloneIff(rid);
  }

  /** Two different request ids, both accepted by the validator, with one key. */
  lemma TwoRequestIdsShareAKey(sid: Text, generation: nat)
    ensures RequestKey(sid, generation, [0xD800]) == RequestKey(sid, generation, [0xD801])
  {
    KeysAgree(sid, generation, [0xD800], sid, generation, [0xD801]);
    assert Scrub([0xD800]) == [REPLACEMENT] == Scrub([0xD801]);
  }
}
