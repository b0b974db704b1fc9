/** The payload hash: the digest of the canonical text. Canonical texts hold no unpaired surrogate, so
    nothing is lost on the way to UTF-8. */
module CanonicalDigest {
  import opened JsText
  import opened CanonicalJson
  import opened TextDigest

  function PayloadHash(body: Json): Digest {
    DigestOf(Canonical(body))
  }

  lemma EscapeUnitIsPlain(u: CodeUnit)
    ensures IsPlain(EscapeUnit(u))
  {
  }

  lemma PairIsWhole(s: Text)
    requires StartsPair(s)
    ensures IsWhole([s[0], s[1]])
  {
    assert [s[0], s[1]][2..] == [];
  }

  lemma {:induction false} EscapedIsWhole(s: Text)
    ensures IsWhole(Escaped(s))
  {
    if s == [] {
    } else if StartsPair(s) {
      EscapedIsWhole(s[2..]);
      PairIsWhole(s);
      WholeAppend([s[0], s[1]], Escaped(s[2..]));
    } else {
      EscapedIsWhole(s[1..]);
      EscapeUnitIsPlain(s[0]);
      PlainIsWhole(EscapeUnit(s[0]));
      WholeAppend(EscapeUnit(s[0]), Escaped(s[1..]));
    }
  }

  lemma UnitIsWhole(u: CodeUnit)
    requires !IsSurrogate(u)
    ensures IsWhole([u])
  {
    PlainIsWhole([u]);
  }

  lemma QuotedIsWhole(s: Text)
    ensures IsWhole(Quoted(s))
  {
    EscapedIsWhole(s);
    UnitIsWhole(QUOTE);
    hide Scrub, Escaped;
    WholeAppend([QUOTE], Escaped(s));
    WholeAppend([QUOTE] + Escaped(s), [QUOTE]);
  }

  lemma BracketedIsWhole(open: CodeUnit, t: Text, close: CodeUnit)
    requires IsWhole(t) && !IsSurrogate(open) && !IsSurrogate(close)
    ensures IsWhole([open] + t + [close])
  {
    UnitIsWhole(open);
    UnitIsWhole(close);
    hide Scrub;
    WholeAppend([open], t);
    WholeAppend([open] + t, [close]);
  }

  lemma {:induction false} CanonicalIsWhole(v: Json)
    requires WellFormed(v)
    ensures IsWhole(Canonical(v))
    decreases v, 1
  {
    match v
    case Null => PlainIsWhole(NULL_WORD);
    case Bool(b) => PlainIsWhole(if b then TRUE_WORD else FALSE_WORD);
    case Num(digits) => PlainIsWhole(digits);
    case Str(text) => QuotedIsWhole(text);
    case Arr(items) =>
      ItemsAreWhole(items);
      BracketedIsWhole(OPEN_ARRAY, JoinItems(items), CLOSE_ARRAY);
    case Obj(fields) =>
      ObjectIsWhole(v);
  }

  ghost predicate WholeMembers(ms: seq<Member>) {
    forall p :: p in ms ==> IsWhole(p.text)
  }

  lemma {:induction false} ItemsAreWhole(items: seq<Json>)
    requires forall i :: 0 <= i < |items| ==> WellFormed(items[i])
    ensures IsWhole(JoinItems(items))
    decreases items, 0
  {
    if items != [] {
      CanonicalIsWhole(items[0]);
      ItemsAreWhole(items[1..]);
      UnitIsWhole(COMMA);
      JoinedIsWhole(Canonical(items[0]), |items| == 1, JoinItems(items[1..]));
    }
  }

  lemma JoinedIsWhole(first: Text, last: bool, rest: Text)
    requires IsWhole(first) && IsWhole(rest)
    ensures IsWhole(first + if last then [] else [COMMA] + rest)
  {
    UnitIsWhole(COMMA);
    WholeAppend([COMMA], rest);
    PlainIsWhole([]);
    WholeAppend(first, if last then [] else [COMMA] + rest);
  }

  lemma {:induction false} MembersAreWhole(ms: seq<Member>)
    requires WholeMembers(ms)
    ensures IsWhole(JoinMembers(ms))
  {
    if ms != [] {
      MembersAreWhole(ms[1..]);
      MemberIsWhole(ms[0]);
      JoinedIsWhole(Quoted(ms[0].key) + [COLON] + ms[0].text, |ms| == 1, JoinMembers(ms[1..]));
    }
  }

  lemma MemberIsWhole(m: Member)
    requires IsWhole(m.text)
    ensures IsWhole(Quoted(m.key) + [COLON] + m.text)
  {
    QuotedIsWhole(m.key);
    UnitIsWhole(COLON);
    hide Scrub, Quoted;
    WholeAppend(Quoted(m.key), [COLON]);
    WholeAppend(Quoted(m.key) + [COLON], m.text);
  }

  lemma {:induction false} ObjectIsWhole(v: Json)
    requires v.Obj? && WellFormed(v)
    ensures IsWhole(Canonical(v))
    decreases v, 0
  {
    var ms := Members(v.fields);
    MembersDistinct(v);
    SortedKeeps(ms);
    forall p | p in Sorted(ms) ensures IsWhole(p.text) {
      var i :| 0 <= i < |ms| && ms[i] == p;
      MemberAt(v.fields, i);
      assert v.fields[i] < v;
      CanonicalIsWhole(v.fields[i].value);
    }
    MembersAreWhole(Sorted(ms));
    BracketedIsWhole(OPEN_OBJECT, JoinMembers(Sorted(ms)), CLOSE_OBJECT);
  }

  /** The payload hash tells JSON values apart, up to the order of object keys. */
  lemma {:induction false} PayloadHashIsUnambiguous(v: Json, w: Json)
    requires WellFormed(v) && WellFormed(w)
    ensures PayloadHash(v) == PayloadHash(w) <==> Same(v, w)
  {
    CanonicalIsWhole(v);
    CanonicalIsWhole(w);
    DigestsAgreeIffScrubbedAgree(Canonical(v), Canonical(w));
    CanonicalIsUnambiguous(v, w);
  }
}
