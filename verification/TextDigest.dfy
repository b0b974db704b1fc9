/** Digests of JavaScript strings: `createHash('sha256').update(text, 'utf8')`. Node writes every unpaired
    surrogate as U+FFFD; SHA-256 is taken as an injective function of the octets. */
module TextDigest {
  import opened JsText

  type Octet = b: int | 0 <= b < 256

  datatype Digest = Sha256(octets: seq<Octet>)

  const REPLACEMENT: CodeUnit := 0xFFFD

  function DigestOf(text: Text): Digest {
    Sha256(Utf8(text))
  }

  predicate StartsPair(s: Text) {
    |s| >= 2 && IsHigh(s[0]) && IsLow(s[1])
  }

  predicate IsSurrogate(u: CodeUnit) {
    IsHigh(u) || IsLow(u)
  }

  function Replaced(u: CodeUnit): CodeUnit {
    if IsSurrogate(u) then REPLACEMENT else u
  }

  /** The text that survives: every unpaired surrogate is replaced. */
  function Scrub(s: Text): (t: Text)
    ensures |t| == |s|
  {
    if s == [] then []
    else if StartsPair(s) then [s[0], s[1]] + Scrub(s[2..])
    else [Replaced(s[0])] + Scrub(s[1..])
  }

  // ---------- UTF-8 ----------

  function UnitOctets(u: CodeUnit): seq<Octet> {
    if u < 0x80 then [u]
    else if u < 0x800 then [0xC0 + u / 0x40, 0x80 + u % 0x40]
    else [0xE0 + u / 0x1000, 0x80 + u / 0x40 % 0x40, 0x80 + u % 0x40]
  }

  function PairValue(high: CodeUnit, low: CodeUnit): int {
    0x1_0000 + (high - 0xD800) * 0x400 + (low - 0xDC00)
  }

  function PairOctets(high: CodeUnit, low: CodeUnit): seq<Octet>
    requires IsHigh(high) && IsLow(low)
  {
    var c := PairValue(high, low);
    [0xF0 + c / 0x4_0000, 0x80 + c / 0x1000 % 0x40, 0x80 + c / 0x40 % 0x40, 0x80 + c % 0x40]
  }

  function Utf8(s: Text): seq<Octet> {
    if s == [] then []
    else if StartsPair(s) then PairOctets(s[0], s[1]) + Utf8(s[2..])
    else UnitOctets(Replaced(s[0])) + Utf8(s[1..])
  }

  /** Reads back what `Utf8` writes; the answer for other octets does not matter. */
  function FromUtf8(b: seq<Octet>): Text {
    if b == [] then []
    else if b[0] < 0x80 then [b[0] as int] + FromUtf8(b[1..])
    else if b[0] < 0xE0 && |b| >= 2 then [Unit(0, b[0] as int - 0xC0, b[1])] + FromUtf8(b[2..])
    else if b[0] < 0xF0 && |b| >= 3 then [Unit(b[0] as int - 0xE0, b[1] as int - 0x80, b[2])] + FromUtf8(b[3..])
    else if |b| >= 4 then FromPair(Four(b[0], b[1], b[2], b[3])) + FromUtf8(b[4..])
    else []
  }

  function Unit(a: int, b: int, c: Octet): CodeUnit {
    (a * 0x1000 + b * 0x40 + (c as int - 0x80)) % 0x1_0000
  }

  function Four(a: Octet, b: Octet, c: Octet, d: Octet): int {
    (a as int - 0xF0) * 0x4_0000 + (b as int - 0x80) * 0x1000 + (c as int - 0x80) * 0x40 + (d as int - 0x80)
  }

  function FromPair(value: int): Text {
    var v := value - 0x1_0000;
    [(0xD800 + v / 0x400) % 0x1_0000, (0xDC00 + v % 0x400) % 0x1_0000]
  }

  lemma Digits64(n: nat)
    ensures n / 0x1000 * 0x1000 + n / 0x40 % 0x40 * 0x40 + n % 0x40 == n
    ensures n / 0x4_0000 * 0x4_0000 + n / 0x1000 % 0x40 * 0x1000 + n / 0x40 % 0x40 * 0x40 + n % 0x40 == n
  {
    var a := n / 0x40;
    var b := a / 0x40;
    DivideTwice(n, 0x40);
    DivideTwice(n, 0x1000);
    assert n == a * 0x40 + n % 0x40 && a == b * 0x40 + a % 0x40;
    assert b == b / 0x40 * 0x40 + b % 0x40;
  }

  lemma DivideTwice(n: nat, by64: nat)
    requires by64 == 0x40 || by64 == 0x1000
    ensures n / (by64 * 0x40) == n / by64 / 0x40
  {
  }

  lemma UnitReadsBack(u: CodeUnit, rest: seq<Octet>)
    ensures FromUtf8(UnitOctets(u) + rest) == [u] + FromUtf8(rest)
  {
    var b := UnitOctets(u) + rest;
    Digits64(u);
    assert b[|UnitOctets(u)|..] == rest;
    if u >= 0x800 {
      assert Unit(b[0] as int - 0xE0, b[1] as int - 0x80, b[2]) == u;
    } else if u >= 0x80 {
      assert Unit(0, b[0] as int - 0xC0, b[1]) == u;
    }
  }

  lemma PairReadsBack(high: CodeUnit, low: CodeUnit, rest: seq<Octet>)
    requires IsHigh(high) && IsLow(low)
    ensures FromUtf8(PairOctets(high, low) + rest) == [high, low] + FromUtf8(rest)
  {
    var b := PairOctets(high, low) + rest;
    Digits64(PairValue(high, low));
    assert b[4..] == rest;
    assert Four(b[0], b[1], b[2], b[3]) == PairValue(high, low);
    PairSplits(high, low);
  }

  lemma PairSplits(high: CodeUnit, low: CodeUnit)
    requires IsHigh(high) && IsLow(low)
    ensures FromPair(PairValue(high, low)) == [high, low]
  {
    var v := (high - 0xD800) * 0x400 + (low - 0xDC00);
    assert v / 0x400 == high - 0xD800 && v % 0x400 == low - 0xDC00;
  }

  lemma {:induction false} Utf8ReadsBack(s: Text)
    ensures FromUtf8(Utf8(s)) == Scrub(s)
  {
    if s == [] {
    } else if StartsPair(s) {
      Utf8ReadsBack(s[2..]);
      PairReadsBack(s[0], s[1], Utf8(s[2..]));
    } else {
      Utf8ReadsBack(s[1..]);
      UnitReadsBack(Replaced(s[0]), Utf8(s[1..]));
    }
  }

  lemma {:induction false} ScrubbingIsInvisible(s: Text)
    ensures Utf8(Scrub(s)) == Utf8(s)
  {
    var t := Scrub(s);
    if s == [] {
    } else if StartsPair(s) {
      ScrubbingIsInvisible(s[2..]);
      assert t[2..] == Scrub(s[2..]);
    } else {
      ScrubbingIsInvisible(s[1..]);
      assert t[1..] == Scrub(s[1..]) && !IsSurrogate(t[0]);
    }
  }

  /** Two texts have the same digest exactly when they agree once unpaired surrogates are replaced. */
  lemma DigestsAgreeIffScrubbedAgree(a: Text, b: Text)
    ensures DigestOf(a) == DigestOf(b) <==> Scrub(a) == Scrub(b)
  {
    Utf8ReadsBack(a);
    Utf8ReadsBack(b);
    ScrubbingIsInvisible(a);
    ScrubbingIsInvisible(b);
  }

  // ---------- scrubbing ----------

  lemma {:induction false} ScrubAt(s: Text, i: nat)
    requires i < |s|
    ensures Scrub(s)[i] == s[i] || (IsSurrogate(s[i]) && Scrub(s)[i] == REPLACEMENT)
  {
    if StartsPair(s) {
      if i >= 2 { ScrubAt(s[2..], i - 2); }
    } else if i >= 1 {
      ScrubAt(s[1..], i - 1);
    }
  }

  /** A unit outside the surrogates separates what is scrubbed before it from what is scrubbed after it. */
  lemma {:induction false} ScrubSplits(a: Text, u: CodeUnit, b: Text)
    requires !IsSurrogate(u)
    ensures Scrub(a + ([u] + b)) == Scrub(a) + ([u] + Scrub(b))
  {
    var rest := [u] + b;
    ScrubHead([u], b);
    assert Scrub([]) == [];
    assert [u][1..] + b == b;
    if a == [] {
      assert a + rest == rest;
    } else {
      ScrubHead(a, rest);
      ScrubHead(a, []);
      ScrubSplits(a[HeadLength(a)..], u, b);
      hide Scrub;
      var k := HeadLength(a);
      assert a + [] == a && a[k..] + [] == a[k..];
      Reassociate(Head(a), Scrub(a[k..]), [u] + Scrub(b));
    }
  }

  lemma Reassociate(a: Text, b: Text, c: Text)
    ensures a + (b + c) == (a + b) + c
  {
  }

  function HeadLength(a: Text): (k: nat)
    requires a != []
    ensures 0 < k <= |a|
  {
    if StartsPair(a) then 2 else 1
  }

  function Head(a: Text): Text
    requires a != []
  {
    if StartsPair(a) then [a[0], a[1]] else [Replaced(a[0])]
  }

  /** Scrubbing goes pair by pair and unit by unit, provided the end of `a` does not pair with what follows. */
  lemma ScrubHead(a: Text, rest: Text)
    requires a != [] && (StartsPair(a + rest) ==> StartsPair(a))
    ensures Scrub(a + rest) == Head(a) + Scrub(a[HeadLength(a)..] + rest)
  {
    var k := HeadLength(a);
    assert (a + rest)[k..] == a[k..] + rest;
    if StartsPair(a) { assert StartsPair(a + rest); }
  }

  predicate IsPlain(t: Text) {
    forall i :: 0 <= i < |t| ==> !IsSurrogate(t[i])
  }

  lemma {:induction false} ScrubAfterPlain(a: Text, b: Text)
    requires IsPlain(a)
    ensures Scrub(a + b) == a + Scrub(b)
  {
    if a == [] {
      assert a + b == b;
    } else {
      assert !IsSurrogate(a[0]);
      ScrubAfterPlain(a[1..], b);
      assert (a + b)[1..] == a[1..] + b;
    }
  }

  /** Texts without unpaired surrogates. */
  predicate IsWhole(t: Text) {
    Scrub(t) == t
  }

  lemma {:induction false} WholeAppend(a: Text, b: Text)
    requires IsWhole(a) && IsWhole(b)
    ensures IsWhole(a + b)
  {
    if a == [] {
      assert a + b == b;
    } else {
      var k := HeadLength(a);
      WholeHead(a);
      WholeAppend(a[k..], b);
      ScrubHead(a, b);
      hide Scrub;
      assert a == a[..k] + a[k..];
      Reassociate(a[..k], a[k..], b);
    }
  }

  lemma WholeHead(a: Text)
    requires a != [] && IsWhole(a)
    ensures Head(a) == a[..HeadLength(a)] && IsWhole(a[HeadLength(a)..])
    ensures !StartsPair(a) ==> !IsSurrogate(a[0])
  {
    var k := HeadLength(a);
    assert a[k..] == Scrub(a)[k..] == Scrub(a[k..]);
    assert a[..k] == Scrub(a)[..k] == Head(a);
  }

  lemma PlainIsWhole(t: Text)
    requires IsPlain(t)
    ensures IsWhole(t)
  {
    ScrubAfterPlain(t, []);
    assert t + [] == t;
  }

  /** One, two, three and four octets: "A", U+00E9, U+20AC and U+1F600, and U+FFFD for half of the last. */
  lemma OctetsOfExamples()
    ensures Utf8([0x41, 0xE9, 0x20AC]) == [0x41, 0xC3, 0xA9, 0xE2, 0x82, 0xAC]
    ensures Utf8([0xD83D, 0xDE00]) == [0xF0, 0x9F, 0x98, 0x80]
    ensures Utf8([0xD83D]) == [0xEF, 0xBF, 0xBD]
  {
    assert [0x41, 0xE9, 0x20AC][1..] == [0xE9, 0x20AC] && [0xE9, 0x20AC][1..] == [0x20AC] && [0x20AC][1..] == [];
    assert [0xD83D, 0xDE00][2..] == [] && [0xD83D][1..] == [];
    assert UnitOctets(0x41) == [0x41] && UnitOctets(0xE9) == [0xC3, 0xA9] && UnitOctets(0x20AC) == [0xE2, 0x82, 0xAC];
    assert Utf8([0x20AC]) == [0xE2, 0x82, 0xAC];
    assert Utf8([0xE9, 0x20AC]) == [0xC3, 0xA9] + [0xE2, 0x82, 0xAC];
    assert PairValue(0xD83D, 0xDE00) == 0x1F600;
  }
}
