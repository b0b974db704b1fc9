/** The canonical text of a request body (deploy/trtc-sign/termination-contract.js): what is digested
    to recognise a repeated request. Strings are escaped as section 7 of RFC 8259 allows and object
    keys are ordered by UTF-16 code units as in section 3.2.3 of RFC 8785. */
module CanonicalJson {
  import opened Outcomes
  import opened JsText
  import opened Numerals

  /** A JSON value. A number is its decimal text; an object lists its fields in insertion order. */
  datatype Json =
    | Null
    | Bool(value: bool)
    | Num(digits: Text)
    | Str(text: Text)
    | Arr(items: seq<Json>)
    | Obj(fields: seq<Field>)

  datatype Field = Field(key: Text, value: Json)

  const QUOTE: CodeUnit := 0x22
  const COMMA: CodeUnit := 0x2C
  const COLON: CodeUnit := 0x3A
  const OPEN_ARRAY: CodeUnit := 0x5B
  const ESCAPE: CodeUnit := 0x5C
  const CLOSE_ARRAY: CodeUnit := 0x5D
  const OPEN_OBJECT: CodeUnit := 0x7B
  const CLOSE_OBJECT: CodeUnit := 0x7D
  const NULL_WORD: Text := [0x6E, 0x75, 0x6C, 0x6C]
  const TRUE_WORD: Text := [0x74, 0x72, 0x75, 0x65]
  const FALSE_WORD: Text := [0x66, 0x61, 0x6C, 0x73, 0x65]

  // ---------- JSON.stringify on strings ----------

  function HexDigit(n: nat): CodeUnit
    requires n < 16
  {
    if n < 10 then 0x30 + n else 0x61 + n - 10
  }

  function HexValue(u: CodeUnit): Option<nat> {
    if 0x30 <= u < 0x3A then Some(u - 0x30) else if 0x61 <= u < 0x67 then Some(u - 0x61 + 10) else None
  }

  function UnicodeEscape(u: CodeUnit): Text {
    [ESCAPE, 0x75, HexDigit(u / 0x1000), HexDigit(u / 0x100 % 16), HexDigit(u / 0x10 % 16), HexDigit(u % 16)]
  }

  /** One code unit outside a surrogate pair. */
  function EscapeUnit(u: CodeUnit): Text {
    if u == QUOTE || u == ESCAPE then [ESCAPE, u]
    else if u == 0x08 then [ESCAPE, 0x62]
    else if u == 0x09 then [ESCAPE, 0x74]
    else if u == 0x0A then [ESCAPE, 0x6E]
    else if u == 0x0C then [ESCAPE, 0x66]
    else if u == 0x0D then [ESCAPE, 0x72]
    else if u < 0x20 || IsHigh(u) || IsLow(u) then UnicodeEscape(u)
    else [u]
  }

  function Escaped(s: Text): Text {
    if s == [] then []
    else if |s| >= 2 && IsHigh(s[0]) && IsLow(s[1]) then [s[0], s[1]] + Escaped(s[2..])
    else EscapeUnit(s[0]) + Escaped(s[1..])
  }

  function Quoted(s: Text): Text {
    [QUOTE] + Escaped(s) + [QUOTE]
  }

  /** Reads the rest of a quoted string: its text and what follows the closing quote. */
  function Unquoted(t: Text): Option<(Text, Text)> {
    if t == [] then None
    else if t[0] == QUOTE then Some(([], t[1..]))
    else if t[0] != ESCAPE then WithUnit(t[0], Unquoted(t[1..]))
    else if |t| >= 6 && t[1] == 0x75 then
      match (HexValue(t[2]), HexValue(t[3]), HexValue(t[4]), HexValue(t[5]))
      case (Some(a), Some(b), Some(c), Some(d)) =>
        WithUnit(a * 0x1000 + b * 0x100 + c * 0x10 + d, Unquoted(t[6..]))
      case _ => None
    else if |t| >= 2 then
      match UnescapedUnit(t[1])
      case Some(u) => WithUnit(u, Unquoted(t[2..]))
      case None => None
    else None
  }

  function UnescapedUnit(u: CodeUnit): Option<CodeUnit> {
    if u == QUOTE || u == ESCAPE then Some(u)
    else if u == 0x62 then Some(0x08)
    else if u == 0x74 then Some(0x09)
    else if u == 0x6E then Some(0x0A)
    else if u == 0x66 then Some(0x0C)
    else if u == 0x72 then Some(0x0D)
    else None
  }

  function WithUnit(u: int, rest: Option<(Text, Text)>): Option<(Text, Text)> {
    if rest.Some? && 0 <= u < 0x1_0000 then Some(([u as CodeUnit] + rest.value.0, rest.value.1)) else None
  }

  lemma HexReadsBack(n: nat)
    requires n < 16
    ensures HexValue(HexDigit(n)) == Some(n)
  {
  }

  lemma HexSum(u: CodeUnit)
    ensures u / 0x1000 < 16
    ensures u / 0x1000 * 0x1000 + u / 0x100 % 16 * 0x100 + u / 0x10 % 16 * 0x10 + u % 16 == u
  {
    assert u / 0x10 == u / 0x100 * 0x10 + u / 0x10 % 16;
    assert u / 0x100 == u / 0x1000 * 0x10 + u / 0x100 % 16;
  }

  lemma UnicodeReadsBack(u: CodeUnit, rest: Text)
    ensures Unquoted(UnicodeEscape(u) + rest) == WithUnit(u, Unquoted(rest))
  {
    var a, b, c, d := u / 0x1000, u / 0x100 % 16, u / 0x10 % 16, u % 16;
    HexSum(u);
    var t := UnicodeEscape(u) + rest;
    HexReadsBack(a); HexReadsBack(b); HexReadsBack(c); HexReadsBack(d);
    assert t[6..] == rest;
    assert t[2] == HexDigit(a) && t[3] == HexDigit(b) && t[4] == HexDigit(c) && t[5] == HexDigit(d);
  }

  lemma UnitReadsBack(u: CodeUnit, rest: Text)
    ensures Unquoted(EscapeUnit(u) + rest) == WithUnit(u, Unquoted(rest))
  {
    if EscapeUnit(u) == UnicodeEscape(u) {
      UnicodeReadsBack(u, rest);
    } else if |EscapeUnit(u)| == 1 {
      assert ([u] + rest)[1..] == rest;
    } else {
      var t := EscapeUnit(u) + rest;
      assert t[2..] == rest && t[0] == ESCAPE && UnescapedUnit(t[1]) == Some(u);
    }
  }

  lemma PlainReadsBack(u: CodeUnit, rest: Text)
    requires u != QUOTE && u != ESCAPE
    ensures Unquoted([u] + rest) == WithUnit(u, Unquoted(rest))
  {
    assert ([u] + rest)[1..] == rest;
  }

  /** Escaping loses nothing, and the closing quote is found where it was put. */
  lemma {:induction false} StringReadsBack(s: Text, rest: Text)
    ensures Unquoted(Escaped(s) + ([QUOTE] + rest)) == Some((s, rest))
  {
    if s == [] {
      assert Escaped(s) + ([QUOTE] + rest) == [QUOTE] + rest;
      assert ([QUOTE] + rest)[1..] == rest;
    } else if |s| >= 2 && IsHigh(s[0]) && IsLow(s[1]) {
      hide Unquoted, Escaped, EscapeUnit;
      StringReadsBack(s[2..], rest);
      EscapedPair(s, [QUOTE] + rest);
      var tail := Escaped(s[2..]) + ([QUOTE] + rest);
      PlainReadsBack(s[1], tail);
      PlainReadsBack(s[0], [s[1]] + tail);
      TwoAndTheRest(s);
    } else {
      hide Unquoted, Escaped, EscapeUnit;
      StringReadsBack(s[1..], rest);
      EscapedUnit(s, [QUOTE] + rest);
      UnitReadsBack(s[0], Escaped(s[1..]) + ([QUOTE] + rest));
      OneAndTheRest(s);
    }
  }

  lemma OneAndTheRest(s: Text)
    requires s != []
    ensures [s[0]] + s[1..] == s
  {
  }

  lemma TwoAndTheRest(s: Text)
    requires |s| >= 2
    ensures [s[0]] + ([s[1]] + s[2..]) == s
  {
  }

  lemma EscapedPair(s: Text, rest: Text)
    requires |s| >= 2 && IsHigh(s[0]) && IsLow(s[1])
    ensures Escaped(s) + rest == [s[0]] + ([s[1]] + (Escaped(s[2..]) + rest))
    ensures s[0] != QUOTE && s[0] != ESCAPE && s[1] != QUOTE && s[1] != ESCAPE
  {
    FrontPair(s[0], s[1], Escaped(s[2..]), rest);
  }

  lemma FrontPair(a: CodeUnit, b: CodeUnit, tail: Text, rest: Text)
    ensures [a, b] + tail + rest == [a] + ([b] + (tail + rest))
  {
    assert [a, b] == [a] + [b];
    assert [a] + [b] + tail + rest == [a] + ([b] + (tail + rest));
  }

  lemma EscapedUnit(s: Text, rest: Text)
    requires s != [] && !(|s| >= 2 && IsHigh(s[0]) && IsLow(s[1]))
    ensures Escaped(s) + rest == EscapeUnit(s[0]) + (Escaped(s[1..]) + rest)
  {
  }

  lemma QuotedReadsBack(s: Text, rest: Text)
    ensures Unquoted((Quoted(s) + rest)[1..]) == Some((s, rest))
  {
    StringReadsBack(s, rest);
    assert (Quoted(s) + rest)[1..] == Escaped(s) + ([QUOTE] + rest);
  }

  lemma QuotedIsUnambiguous(a: Text, b: Text, r: Text, s: Text)
    requires Quoted(a) + r == Quoted(b) + s
    ensures a == b && r == s
  {
    QuotedReadsBack(a, r);
    QuotedReadsBack(b, s);
  }

  // ---------- canonical ----------

  predicate IsNumberUnit(u: CodeUnit) {
    0x30 <= u < 0x3A || u in {0x2B, 0x2D, 0x2E, 0x45, 0x65}
  }

  /** What JSON.parse can have produced: number texts look like numbers, and the keys of an object
      are distinct. */
  ghost predicate WellFormed(v: Json) {
    match v
    case Num(digits) =>
      && digits != [] && (0x30 <= digits[0] < 0x3A || digits[0] == 0x2D)
      && forall i :: 0 <= i < |digits| ==> IsNumberUnit(digits[i])
    case Arr(items) => forall i :: 0 <= i < |items| ==> WellFormed(items[i])
    case Obj(fields) =>
      && (forall i, j :: 0 <= i < j < |fields| ==> fields[i].key != fields[j].key)
      && (forall i :: 0 <= i < |fields| ==> WellFormed(fields[i].value))
    case _ => true
  }

  /** One `key:value` member, rendered. */
  datatype Member = Member(key: Text, text: Text)

  function Insert(m: Member, sorted: seq<Member>): seq<Member> {
    if sorted == [] then [m]
    else if Less(sorted[0].key, m.key) then [sorted[0]] + Insert(m, sorted[1..])
    else [m] + sorted
  }

  function Sorted(ms: seq<Member>): seq<Member> {
    if ms == [] then [] else Insert(ms[0], Sorted(ms[1..]))
  }

  function JoinMembers(ms: seq<Member>): Text {
    if ms == [] then []
    else
      Quoted(ms[0].key) + [COLON] + ms[0].text + if |ms| == 1 then [] else [COMMA] + JoinMembers(ms[1..])
  }

  function Canonical(v: Json): Text
    decreases v, 1
  {
    match v
    case Null => NULL_WORD
    case Bool(b) => if b then TRUE_WORD else FALSE_WORD
    case Num(digits) => digits
    case Str(text) => Quoted(text)
    case Arr(items) => [OPEN_ARRAY] + JoinItems(items) + [CLOSE_ARRAY]
    case Obj(fields) => [OPEN_OBJECT] + JoinMembers(Sorted(Members(fields))) + [CLOSE_OBJECT]
  }

  function JoinItems(items: seq<Json>): Text
    decreases items, 0
  {
    if items == [] then []
    else Canonical(items[0]) + if |items| == 1 then [] else [COMMA] + JoinItems(items[1..])
  }

  function Members(fields: seq<Field>): (ms: seq<Member>)
    ensures |ms| == |fields|
    decreases fields, 0
  {
    if fields == [] then []
    else [Member(fields[0].key, Canonical(fields[0].value))] + Members(fields[1..])
  }

  /** Equality of JSON values up to the order of object keys. */
  ghost predicate Same(v: Json, w: Json)
    decreases v
  {
    match (v, w)
    case (Arr(a), Arr(b)) => |a| == |b| && forall i :: 0 <= i < |a| ==> Same(a[i], b[i])
    case (Obj(f), Obj(g)) =>
      && (forall i {:trigger OccursIn(f[i], g)} :: 0 <= i < |f| ==> OccursIn(f[i], g))
      && (forall j {:trigger Covers(f, g[j])} :: 0 <= j < |g| ==> Covers(f, g[j]))
    case _ => v == w
  }

  ghost predicate OccursIn(a: Field, g: seq<Field>)
    decreases a, 1
  {
    exists j :: 0 <= j < |g| && SameField(a, g[j])
  }

  ghost predicate Covers(f: seq<Field>, b: Field)
    decreases f
  {
    exists i :: 0 <= i < |f| && SameField(f[i], b)
  }

  ghost predicate SameField(a: Field, b: Field)
    decreases a, 0
  {
    a.key == b.key && Same(a.value, b.value)
  }

  // ---------- sorting ----------

  ghost predicate Ordered(ms: seq<Member>) {
    forall i, j :: 0 <= i < j < |ms| ==> Less(ms[i].key, ms[j].key)
  }

  ghost predicate DistinctKeys(ms: seq<Member>) {
    forall i, j :: 0 <= i < j < |ms| ==> ms[i].key != ms[j].key
  }

  lemma {:induction false} InsertKeeps(m: Member, sorted: seq<Member>)
    requires Ordered(sorted) && (forall i :: 0 <= i < |sorted| ==> sorted[i].key != m.key)
    ensures Ordered(Insert(m, sorted))
    ensures forall p :: p in Insert(m, sorted) <==> p == m || p in sorted
  {
    if sorted != [] {
      if Less(sorted[0].key, m.key) {
        var rest := Insert(m, sorted[1..]);
        InsertKeeps(m, sorted[1..]);
        assert sorted == [sorted[0]] + sorted[1..];
        forall j | 0 <= j < |rest| ensures Less(sorted[0].key, rest[j].key) {
          assert rest[j] in rest;
        }
      } else {
        LessIsTotal(sorted[0].key, m.key);
        forall j | 0 <= j < |sorted| ensures Less(m.key, sorted[j].key) {
          if j > 0 { LessIsTransitive(m.key, sorted[0].key, sorted[j].key); }
        }
      }
    }
  }

  lemma {:induction false} SortedKeeps(ms: seq<Member>)
    requires DistinctKeys(ms)
    ensures Ordered(Sorted(ms)) && forall p :: p in Sorted(ms) <==> p in ms
  {
    if ms != [] {
      SortedKeeps(ms[1..]);
      var rest := Sorted(ms[1..]);
      assert ms == [ms[0]] + ms[1..];
      forall i | 0 <= i < |rest| ensures rest[i].key != ms[0].key {
        assert rest[i] in rest;
      }
      InsertKeeps(ms[0], rest);
    }
  }

  /** An order-independent set of members has one sorted list. */
  lemma {:induction false} OrderedIsUnique(a: seq<Member>, b: seq<Member>)
    requires Ordered(a) && Ordered(b) && forall p :: p in a <==> p in b
    ensures a == b
  {
    if a == [] {
      assert forall i :: 0 <= i < |b| ==> b[i] in b;
    } else {
      assert a[0] in a && a[0] in b;
      assert b[0] in b && b[0] in a;
      var i :| 0 <= i < |b| && b[i] == a[0];
      var j :| 0 <= j < |a| && a[j] == b[0];
      if i > 0 && j > 0 {
        LessIsTransitive(a[0].key, b[0].key, a[0].key);
        LessIsIrreflexive(a[0].key);
        assert false;
      }
      assert a[0] == b[0];
      forall p ensures p in a[1..] <==> p in b[1..] {
        TailHolds(a, p);
        TailHolds(b, p);
      }
      OrderedIsUnique(a[1..], b[1..]);
      assert a == [a[0]] + a[1..] && b == [b[0]] + b[1..];
    }
  }

  lemma TailHolds(a: seq<Member>, p: Member)
    requires a != [] && Ordered(a)
    ensures p in a[1..] <==> p in a && p != a[0]
  {
    LessIsIrreflexive(a[0].key);
    assert a == [a[0]] + a[1..];
    assert forall j :: 0 < j < |a| ==> a[j] == a[1..][j - 1];
  }

  lemma {:induction false} MemberAt(fields: seq<Field>, i: nat)
    requires i < |fields|
    ensures Members(fields)[i] == Member(fields[i].key, Canonical(fields[i].value))
  {
    if i > 0 {
      MemberAt(fields[1..], i - 1);
    }
  }

  lemma MembersDistinct(v: Json)
    requires v.Obj? && WellFormed(v)
    ensures DistinctKeys(Members(v.fields))
  {
    forall i, j | 0 <= i < j < |v.fields| ensures Members(v.fields)[i].key != Members(v.fields)[j].key {
      MemberAt(v.fields, i);
      MemberAt(v.fields, j);
    }
  }

  // ---------- equal values have equal texts ----------

  lemma {:induction false} JoinItemsEqual(a: seq<Json>, b: seq<Json>)
    requires |a| == |b| && forall i :: 0 <= i < |a| ==> Canonical(a[i]) == Canonical(b[i])
    ensures JoinItems(a) == JoinItems(b)
  {
    if a != [] {
      JoinItemsEqual(a[1..], b[1..]);
    }
  }

  lemma {:induction false} KeyOrderIsIgnored(v: Json, w: Json)
    requires WellFormed(v) && WellFormed(w) && Same(v, w)
    ensures Canonical(v) == Canonical(w)
    decreases v, 1
  {
    match v
    case Arr(items) =>
      forall i | 0 <= i < |items| ensures Canonical(items[i]) == Canonical(w.items[i]) {
        KeyOrderIsIgnored(items[i], w.items[i]);
      }
      JoinItemsEqual(items, w.items);
    case Obj(_) => FieldOrderIsIgnored(v, w);
    case _ =>
  }

  lemma {:induction false} FieldOrderIsIgnored(v: Json, w: Json)
    requires v.Obj? && w.Obj? && WellFormed(v) && WellFormed(w) && Same(v, w)
    ensures Canonical(v) == Canonical(w)
    decreases v, 0, 1
  {
    var f, g := v.fields, w.fields;
    forall i | 0 <= i < |f| ensures Members(f)[i] in Members(g) {
      assert OccursIn(f[i], g);
      var j :| 0 <= j < |g| && SameField(f[i], g[j]);
      FieldsRenderEqually(v, w, i, j);
    }
    forall j | 0 <= j < |g| ensures Members(g)[j] in Members(f) {
      assert Covers(f, g[j]);
      var i :| 0 <= i < |f| && SameField(f[i], g[j]);
      FieldsRenderEqually(v, w, i, j);
    }
    MembersDistinct(v); MembersDistinct(w);
    SameMembersSortEqually(Members(f), Members(g));
  }

  lemma {:induction false} FieldsRenderEqually(v: Json, w: Json, i: nat, j: nat)
    requires v.Obj? && w.Obj? && WellFormed(v) && WellFormed(w)
    requires i < |v.fields| && j < |w.fields| && SameField(v.fields[i], w.fields[j])
    ensures Members(v.fields)[i] == Members(w.fields)[j]
    decreases v, 0, 0
  {
    MemberAt(v.fields, i);
    MemberAt(w.fields, j);
    KeyOrderIsIgnored(v.fields[i].value, w.fields[j].value);
  }

  lemma SameMembersSortEqually(a: seq<Member>, b: seq<Member>)
    requires DistinctKeys(a) && DistinctKeys(b)
    requires (forall i :: 0 <= i < |a| ==> a[i] in b) && (forall j :: 0 <= j < |b| ==> b[j] in a)
    ensures Sorted(a) == Sorted(b)
  {
    SortedKeeps(a);
    SortedKeeps(b);
    OrderedIsUnique(Sorted(a), Sorted(b));
  }

  // ---------- equal texts come from equal values ----------

  /** What may follow a value inside a canonical text. */
  predicate Ends(r: Text) {
    r == [] || r[0] in {COMMA, CLOSE_ARRAY, CLOSE_OBJECT}
  }

  lemma Regroup(a: Text, b: Text, c: Text)
    ensures (a + b) + c == a + (b + c)
  {
  }

  lemma NumberIsUnambiguous(a: Text, b: Text, r: Text, s: Text)
    requires (forall i :: 0 <= i < |a| ==> IsNumberUnit(a[i])) && (forall i :: 0 <= i < |b| ==> IsNumberUnit(b[i]))
    requires Ends(r) && Ends(s) && a + r == b + s
    ensures a == b && r == s
  {
    NumberNotShorter(a, b, r, s);
    NumberNotShorter(b, a, s, r);
    Cancel(a, b, r, s);
  }

  lemma NumberNotShorter(a: Text, b: Text, r: Text, s: Text)
    requires (forall i :: 0 <= i < |b| ==> IsNumberUnit(b[i])) && Ends(r) && a + r == b + s
    ensures |a| >= |b|
  {
    var t := a + r;
    assert |t| == |b| + |s|;
    assert forall i :: 0 <= i < |b| ==> t[i] == b[i];
    assert r != [] ==> t[|a|] == r[0] && !IsNumberUnit(r[0]);
  }

  /** What follows the first element of a list: another one, or the closing bracket. */
  function After(last: bool, rest: Text, close: CodeUnit, r: Text): Text {
    if last then [close] + r else [COMMA] + rest
  }

  lemma AfterIsUnambiguous(last: bool, last': bool, rest: Text, rest': Text, close: CodeUnit, r: Text, s: Text)
    requires close != COMMA && After(last, rest, close, r) == After(last', rest', close, s)
    ensures last == last' && (last ==> r == s) && (!last ==> rest == rest')
  {
    var x, y := After(last, rest, close, r), After(last', rest', close, s);
    assert x[0] == y[0] && x[1..] == y[1..];
    assert x[1..] == if last then r else rest;
    assert y[1..] == if last' then s else rest';
  }

  /** The first unit of a canonical text tells the kind of value. */
  function Kind(v: Json): nat {
    match v
    case Null => 0
    case Bool(b) => if b then 1 else 2
    case Num(_) => 3
    case Str(_) => 4
    case Arr(_) => 5
    case Obj(_) => 6
  }

  function KindOfUnit(u: CodeUnit): nat {
    if u == 0x6E then 0 else if u == 0x74 then 1 else if u == 0x66 then 2
    else if u == QUOTE then 4 else if u == OPEN_ARRAY then 5 else if u == OPEN_OBJECT then 6 else 3
  }

  lemma FirstUnitTellsKind(v: Json)
    requires WellFormed(v)
    ensures Canonical(v) != [] && KindOfUnit(Canonical(v)[0]) == Kind(v)
    ensures Canonical(v)[0] != CLOSE_ARRAY
  {
  }

  lemma KindsAgree(v: Json, w: Json, r: Text, s: Text)
    requires WellFormed(v) && WellFormed(w) && Canonical(v) + r == Canonical(w) + s
    ensures Kind(v) == Kind(w)
  {
    FirstUnitTellsKind(v);
    FirstUnitTellsKind(w);
    assert (Canonical(v) + r)[0] == Canonical(v)[0] && (Canonical(w) + s)[0] == Canonical(w)[0];
  }

  lemma {:induction false} TextIsUnambiguous(v: Json, w: Json, r: Text, s: Text)
    requires WellFormed(v) && WellFormed(w) && Ends(r) && Ends(s)
    requires Canonical(v) + r == Canonical(w) + s
    ensures Same(v, w) && r == s
    decreases v, 2
  {
    KindsAgree(v, w, r, s);
    match v
    case Null => Cancel(NULL_WORD, NULL_WORD, r, s);
    case Bool(_) => Cancel(Canonical(v), Canonical(w), r, s);
    case Num(digits) => NumberIsUnambiguous(digits, w.digits, r, s);
    case Str(text) => QuotedIsUnambiguous(text, w.text, r, s);
    case Arr(items) =>
      ArrayShape(items, r);
      ArrayShape(w.items, s);
      Cancel([OPEN_ARRAY], [OPEN_ARRAY],
             JoinItems(items) + ([CLOSE_ARRAY] + r), JoinItems(w.items) + ([CLOSE_ARRAY] + s));
      ItemsAreUnambiguous(v, items, w.items, r, s);
    case Obj(_) => ObjectIsUnambiguous(v, w, r, s);
  }

  lemma ArrayShape(items: seq<Json>, r: Text)
    ensures Canonical(Arr(items)) + r == [OPEN_ARRAY] + (JoinItems(items) + ([CLOSE_ARRAY] + r))
  {
    var t := JoinItems(items);
    assert ([OPEN_ARRAY] + t + [CLOSE_ARRAY]) + r == [OPEN_ARRAY] + (t + ([CLOSE_ARRAY] + r));
  }

  lemma ItemsShape(items: seq<Json>, r: Text)
    requires items != []
    ensures JoinItems(items) + ([CLOSE_ARRAY] + r)
            == Canonical(items[0]) + After(|items| == 1, JoinItems(items[1..]) + ([CLOSE_ARRAY] + r), CLOSE_ARRAY, r)
  {
    var tail := [CLOSE_ARRAY] + r;
    if |items| == 1 {
      assert JoinItems(items) == Canonical(items[0]) + [];
      Regroup(Canonical(items[0]), [], tail);
      assert [] + tail == tail;
    } else {
      assert JoinItems(items) == Canonical(items[0]) + ([COMMA] + JoinItems(items[1..]));
      Regroup(Canonical(items[0]), [COMMA] + JoinItems(items[1..]), tail);
      Regroup([COMMA], JoinItems(items[1..]), tail);
    }
  }

  ghost predicate AllWellFormed(items: seq<Json>) {
    forall i :: 0 <= i < |items| ==> WellFormed(items[i])
  }

  lemma {:induction false} ItemsAreUnambiguous(v: Json, a: seq<Json>, b: seq<Json>, r: Text, s: Text)
    requires AllWellFormed(a) && AllWellFormed(b)
    requires forall i :: 0 <= i < |a| ==> a[i] < v
    requires JoinItems(a) + ([CLOSE_ARRAY] + r) == JoinItems(b) + ([CLOSE_ARRAY] + s)
    ensures |a| == |b| && (forall i :: 0 <= i < |a| ==> Same(a[i], b[i])) && r == s
    decreases v, 1, |a|
  {
    if a == [] || b == [] {
      EmptyItems(a, b, r, s);
    } else {
      var restA, restB := JoinItems(a[1..]) + ([CLOSE_ARRAY] + r), JoinItems(b[1..]) + ([CLOSE_ARRAY] + s);
      ItemsShape(a, r);
      ItemsShape(b, s);
      TextIsUnambiguous(a[0], b[0], After(|a| == 1, restA, CLOSE_ARRAY, r), After(|b| == 1, restB, CLOSE_ARRAY, s));
      AfterIsUnambiguous(|a| == 1, |b| == 1, restA, restB, CLOSE_ARRAY, r, s);
      if |a| > 1 {
        ItemsAreUnambiguous(v, a[1..], b[1..], r, s);
        assert a == [a[0]] + a[1..] && b == [b[0]] + b[1..];
      }
    }
  }

  lemma NonEmptyItems(items: seq<Json>, tail: Text)
    requires items != [] && WellFormed(items[0])
    ensures |JoinItems(items)| > 0 && (JoinItems(items) + tail)[0] != CLOSE_ARRAY
  {
    FirstUnitTellsKind(items[0]);
    assert JoinItems(items)[0] == Canonical(items[0])[0];
  }

  lemma EmptyItems(a: seq<Json>, b: seq<Json>, r: Text, s: Text)
    requires (a == [] || b == []) && JoinItems(a) + ([CLOSE_ARRAY] + r) == JoinItems(b) + ([CLOSE_ARRAY] + s)
    requires AllWellFormed(a) && AllWellFormed(b)
    ensures a == [] && b == [] && r == s
  {
    if a != [] { NonEmptyItems(a, [CLOSE_ARRAY] + r); }
    if b != [] { NonEmptyItems(b, [CLOSE_ARRAY] + s); }
    assert [] + ([CLOSE_ARRAY] + r) == [CLOSE_ARRAY] + r && [] + ([CLOSE_ARRAY] + s) == [CLOSE_ARRAY] + s;
    Cancel([CLOSE_ARRAY], [CLOSE_ARRAY], r, s);
  }

  // ---------- objects ----------

  /** Two rendered members stem from fields with the same key and the same value. */
  ghost predicate FieldPair(f: seq<Field>, g: seq<Field>, i: nat, j: nat, p: Member, q: Member)
    requires i < |f| && j < |g|
  {
    Members(f)[i] == p && Members(g)[j] == q && SameField(f[i], g[j])
  }

  ghost predicate Matches(f: seq<Field>, g: seq<Field>, p: Member, q: Member) {
    exists i, j :: 0 <= i < |f| && 0 <= j < |g| && FieldPair(f, g, i, j, p, q)
  }

  lemma ObjectShape(fields: seq<Field>, r: Text)
    ensures Canonical(Obj(fields)) + r
            == [OPEN_OBJECT] + (JoinMembers(Sorted(Members(fields))) + ([CLOSE_OBJECT] + r))
  {
    var t := JoinMembers(Sorted(Members(fields)));
    assert ([OPEN_OBJECT] + t + [CLOSE_OBJECT]) + r == [OPEN_OBJECT] + (t + ([CLOSE_OBJECT] + r));
  }

  lemma MembersShape(ms: seq<Member>, r: Text)
    requires ms != []
    ensures JoinMembers(ms) + ([CLOSE_OBJECT] + r)
            == Quoted(ms[0].key) + ([COLON] + (ms[0].text
               + After(|ms| == 1, JoinMembers(ms[1..]) + ([CLOSE_OBJECT] + r), CLOSE_OBJECT, r)))
  {
    var head, rest, tail := Quoted(ms[0].key) + [COLON] + ms[0].text, JoinMembers(ms[1..]), [CLOSE_OBJECT] + r;
    var after := After(|ms| == 1, rest + tail, CLOSE_OBJECT, r);
    assert JoinMembers(ms) + tail == head + after by {
      if |ms| == 1 {
        assert JoinMembers(ms) == head + [];
        Regroup(head, [], tail);
        assert [] + tail == tail;
      } else {
        assert JoinMembers(ms) == head + ([COMMA] + rest);
        Regroup(head, [COMMA] + rest, tail);
        Regroup([COMMA], rest, tail);
      }
    }
    Regroup(Quoted(ms[0].key) + [COLON], ms[0].text, after);
    Regroup(Quoted(ms[0].key), [COLON], ms[0].text + after);
  }

  lemma {:induction false} MembersAreUnambiguous(v: Json, w: Json, ps: seq<Member>, qs: seq<Member>, r: Text, s: Text)
    requires v.Obj? && w.Obj? && WellFormed(v) && WellFormed(w)
    requires (forall p :: p in ps ==> p in Members(v.fields)) && (forall q :: q in qs ==> q in Members(w.fields))
    requires JoinMembers(ps) + ([CLOSE_OBJECT] + r) == JoinMembers(qs) + ([CLOSE_OBJECT] + s)
    ensures |ps| == |qs| && (forall m :: 0 <= m < |ps| ==> Matches(v.fields, w.fields, ps[m], qs[m])) && r == s
    decreases v, 1, |ps|
  {
    if ps == [] || qs == [] {
      EmptyMembers(ps, qs, r, s);
    } else {
      hide JoinMembers, Members, WellFormed, Matches, Quoted, After, Ends;
      var restP, restQ := JoinMembers(ps[1..]) + ([CLOSE_OBJECT] + r), JoinMembers(qs[1..]) + ([CLOSE_OBJECT] + s);
      MembersShape(ps, r);
      MembersShape(qs, s);
      MemberIsUnambiguous(v, w, ps[0], qs[0],
                          After(|ps| == 1, restP, CLOSE_OBJECT, r), After(|qs| == 1, restQ, CLOSE_OBJECT, s));
      AfterIsUnambiguous(|ps| == 1, |qs| == 1, restP, restQ, CLOSE_OBJECT, r, s);
      if |ps| > 1 {
        MembersAreUnambiguous(v, w, ps[1..], qs[1..], r, s);
        assert forall m :: 0 < m < |ps| ==> ps[m] == ps[1..][m - 1] && qs[m] == qs[1..][m - 1];
      }
    }
  }

  /** The first members agree, and so does what follows them. */
  lemma {:induction false} MemberIsUnambiguous(v: Json, w: Json, p: Member, q: Member, x: Text, y: Text)
    requires v.Obj? && w.Obj? && WellFormed(v) && WellFormed(w) && Ends(x) && Ends(y)
    requires p in Members(v.fields) && q in Members(w.fields)
    requires Quoted(p.key) + ([COLON] + (p.text + x)) == Quoted(q.key) + ([COLON] + (q.text + y))
    ensures Matches(v.fields, w.fields, p, q) && x == y
    decreases v, 0
  {
    var f, g := v.fields, w.fields;
    QuotedIsUnambiguous(p.key, q.key, [COLON] + (p.text + x), [COLON] + (q.text + y));
    Cancel([COLON], [COLON], p.text + x, q.text + y);
    var i :| 0 <= i < |f| && Members(f)[i] == p;
    var j :| 0 <= j < |g| && Members(g)[j] == q;
    MemberAt(f, i);
    MemberAt(g, j);
    assert f[i] < v;
    TextIsUnambiguous(f[i].value, g[j].value, x, y);
    assert FieldPair(f, g, i, j, p, q);
  }

  lemma NonEmptyMembers(ms: seq<Member>, tail: Text)
    requires ms != []
    ensures (JoinMembers(ms) + tail)[0] == QUOTE
  {
  }

  lemma EmptyMembers(ps: seq<Member>, qs: seq<Member>, r: Text, s: Text)
    requires (ps == [] || qs == []) && JoinMembers(ps) + ([CLOSE_OBJECT] + r) == JoinMembers(qs) + ([CLOSE_OBJECT] + s)
    ensures ps == [] && qs == [] && r == s
  {
    if ps != [] { NonEmptyMembers(ps, [CLOSE_OBJECT] + r); }
    if qs != [] { NonEmptyMembers(qs, [CLOSE_OBJECT] + s); }
    assert [] + ([CLOSE_OBJECT] + r) == [CLOSE_OBJECT] + r && [] + ([CLOSE_OBJECT] + s) == [CLOSE_OBJECT] + s;
    Cancel([CLOSE_OBJECT], [CLOSE_OBJECT], r, s);
  }

  lemma {:induction false} ObjectIsUnambiguous(v: Json, w: Json, r: Text, s: Text)
    requires v.Obj? && w.Obj? && WellFormed(v) && WellFormed(w)
    requires Canonical(v) + r == Canonical(w) + s
    ensures Same(v, w) && r == s
    decreases v, 1
  {
    var ps, qs := Sorted(Members(v.fields)), Sorted(Members(w.fields));
    ObjectShape(v.fields, r);
    ObjectShape(w.fields, s);
    Cancel([OPEN_OBJECT], [OPEN_OBJECT],
           JoinMembers(ps) + ([CLOSE_OBJECT] + r), JoinMembers(qs) + ([CLOSE_OBJECT] + s));
    MembersDistinct(v); MembersDistinct(w);
    SortedKeeps(Members(v.fields)); SortedKeeps(Members(w.fields));
    MembersAreUnambiguous(v, w, ps, qs, r, s);
    MatchedObjectsAreSame(v, w, ps, qs);
  }

  lemma MatchedObjectsAreSame(v: Json, w: Json, ps: seq<Member>, qs: seq<Member>)
    requires v.Obj? && w.Obj? && WellFormed(v) && WellFormed(w) && |ps| == |qs|
    requires (forall p :: p in Members(v.fields) ==> p in ps) && (forall q :: q in Members(w.fields) ==> q in qs)
    requires forall m :: 0 <= m < |ps| ==> Matches(v.fields, w.fields, ps[m], qs[m])
    ensures Same(v, w)
  {
    var f, g := v.fields, w.fields;
    forall i | 0 <= i < |f| ensures OccursIn(f[i], g) {
      assert Members(f)[i] in Members(f);
      var m :| 0 <= m < |ps| && ps[m] == Members(f)[i];
      PartnerOfLeft(v, w, i, qs[m]);
    }
    forall j | 0 <= j < |g| ensures Covers(f, g[j]) {
      assert Members(g)[j] in Members(g);
      var m :| 0 <= m < |qs| && qs[m] == Members(g)[j];
      PartnerOfRight(v, w, ps[m], j);
    }
  }

  lemma PartnerOfLeft(v: Json, w: Json, i: nat, q: Member)
    requires v.Obj? && w.Obj? && WellFormed(v) && i < |v.fields|
    requires Matches(v.fields, w.fields, Members(v.fields)[i], q)
    ensures OccursIn(v.fields[i], w.fields)
  {
    var f, g := v.fields, w.fields;
    var i', j :| 0 <= i' < |f| && 0 <= j < |g| && FieldPair(f, g, i', j, Members(f)[i], q);
    MemberAt(f, i);
    MemberAt(f, i');
    assert i' == i;
  }

  lemma PartnerOfRight(v: Json, w: Json, p: Member, j: nat)
    requires v.Obj? && w.Obj? && WellFormed(w) && j < |w.fields|
    requires Matches(v.fields, w.fields, p, Members(w.fields)[j])
    ensures Covers(v.fields, w.fields[j])
  {
    var f, g := v.fields, w.fields;
    var i, j' :| 0 <= i < |f| && 0 <= j' < |g| && FieldPair(f, g, i, j', p, Members(g)[j]);
    MemberAt(g, j);
    MemberAt(g, j');
    assert j' == j;
  }

  /** Two bodies have the same canonical text exactly when they are the same value up to key order. */
  lemma CanonicalIsUnambiguous(v: Json, w: Json)
    requires WellFormed(v) && WellFormed(w)
    ensures Canonical(v) == Canonical(w) <==> Same(v, w)
  {
    if Same(v, w) { KeyOrderIsIgnored(v, w); }
    if Canonical(v) == Canonical(w) {
      assert Canonical(v) + [] == Canonical(w) + [];
      TextIsUnambiguous(v, w, [], []);
    }
  }
}
