/**
 The canonical identity encoding of closed value trees: tagged, length-prefixed bytes. No
 encoding is a proper prefix of another, and no two values share one.
 */
module Encoding {

  type Bytes = seq<int>

  /** A closed value: text is UTF-8, a binary64 is its eight bytes, an enum member its type and value names. */
  datatype Value =
    | Nothing
    | Flag(on: bool)
    | Whole(i: int)
    | Binary(bits: Bytes)
    | Text(utf8: Bytes)
    | Blob(bytes: Bytes)
    | Member(kind: Bytes, value: Bytes)
    | Tuple(items: seq<Value>)
    | Record(name: Bytes, fields: seq<Field>)

  datatype Field = Field(name: Bytes, value: Value)

  // ----- fixed-width integers -----------------------------------------------------------

  function Pow256(size: nat): nat { if size == 0 then 1 else 256 * Pow256(size - 1) }

  /** The low `size` bytes of an integer, most significant first. */
  function BigEndian(n: nat, size: nat): (r: Bytes)
    ensures |r| == size
    decreases size
  {
    if size == 0 then [] else BigEndian(n / 256, size - 1) + [n % 256]
  }

  /** The number a list of bytes is read as, most significant first. */
  ghost function Reading(b: Bytes): int {
    if b == [] then 0 else 256 * Reading(b[..|b| - 1]) + b[|b| - 1]
  }

  lemma {:induction false} BigEndianReads(n: nat, size: nat)
    requires n < Pow256(size)
    ensures Reading(BigEndian(n, size)) == n
    decreases size
  {
    if size > 0 {
      var b := BigEndian(n, size);
      assert b[..size - 1] == BigEndian(n / 256, size - 1) && b[size - 1] == n % 256;
      BigEndianReads(n / 256, size - 1);
    }
  }

  lemma {:induction false} BigEndianInjective(m: nat, n: nat, size: nat)
    requires m < Pow256(size) && n < Pow256(size) && BigEndian(m, size) == BigEndian(n, size)
    ensures m == n
    decreases size
  {
    if size > 0 {
      var a, b := BigEndian(m, size), BigEndian(n, size);
      assert a[..size - 1] == BigEndian(m / 256, size - 1) && a[size - 1] == m % 256;
      assert b[..size - 1] == BigEndian(n / 256, size - 1) && b[size - 1] == n % 256;
      BigEndianInjective(m / 256, n / 256, size - 1);
    }
  }

  /** The number of bytes of a magnitude, at least one. */
  function Width(n: nat): (w: nat)
    ensures w >= 1
  {
    if n < 256 then 1 else 1 + Width(n / 256)
  }

  /** The fewest bytes that hold the magnitude. */
  lemma {:induction false} WidthHolds(n: nat)
    ensures n < Pow256(Width(n))
    ensures Width(n) > 1 ==> Pow256(Width(n) - 1) <= n
    decreases n
  {
    if n >= 256 { WidthHolds(n / 256); } else { assert Pow256(1) == 256 * Pow256(0); }
  }

  const LIMIT: nat := Pow256(8)

  function Length(n: nat): Bytes { BigEndian(n, 8) }

  // ----- the encoding -------------------------------------------------------------------

  function Magnitude(i: int): (m: nat)
    ensures m == i || m == -i
  {
    if i < 0 then -i else i
  }

  function Scalar(tag: int, payload: Bytes): Bytes { [tag] + Length(|payload|) + payload }

  /** The bytes of a value: one tag letter, then lengths and contents. */
  function Raw(v: Value): Bytes
    decreases v
  {
    match v
    case Nothing => [78]
    case Flag(on) => if on then [84] else [70]
    case Whole(i) => [73, if i < 0 then 45 else 43] + Length(Width(Magnitude(i))) + BigEndian(Magnitude(i), Width(Magnitude(i)))
    case Binary(bits) => Scalar(68, bits)
    case Text(utf8) => Scalar(83, utf8)
    case Blob(bytes) => Scalar(66, bytes)
    case Member(kind, value) => [69] + Scalar(83, kind) + Scalar(83, value)
    case Tuple(items) => [65] + Length(|items|) + RawAll(items)
    case Record(name, fields) => [82] + Scalar(83, name) + Length(|fields|) + RawFields(fields)
  }

  function RawAll(items: seq<Value>): Bytes
    decreases items
  {
    if items == [] then [] else Raw(items[0]) + RawAll(items[1..])
  }

  function RawFields(fields: seq<Field>): Bytes
    decreases fields
  {
    if fields == [] then [] else Scalar(83, fields[0].name) + Raw(fields[0].value) + RawFields(fields[1..])
  }

  /** Every length fits the eight bytes it is written in, and a binary64 has eight. */
  predicate Closed(v: Value)
    decreases v
  {
    match v
    case Nothing => true
    case Flag(_) => true
    case Whole(i) => Width(Magnitude(i)) < LIMIT
    case Binary(bits) => |bits| == 8
    case Text(utf8) => |utf8| < LIMIT
    case Blob(bytes) => |bytes| < LIMIT
    case Member(kind, value) => |kind| < LIMIT && |value| < LIMIT
    case Tuple(items) => |items| < LIMIT && forall i | 0 <= i < |items| :: Closed(items[i])
    case Record(name, fields) => |name| < LIMIT && |fields| < LIMIT && forall i | 0 <= i < |fields| :: |fields[i].name| < LIMIT && Closed(fields[i].value)
  }

  // ----- unique parsing -----------------------------------------------------------------

  /** Equal concatenations with equally long fronts have equal fronts and equal backs. */
  lemma Split(a: Bytes, r: Bytes, b: Bytes, s: Bytes)
    requires a + r == b + s && |a| == |b|
    ensures a == b && r == s
  {
    assert (a + r)[..|a|] == a && (b + s)[..|b|] == b;
    assert (a + r)[|a|..] == r && (b + s)[|b|..] == s;
  }

  lemma Regroup(a: Bytes, b: Bytes, c: Bytes)
    ensures (a + b) + c == a + (b + c)
  {
  }

  lemma SameLength(m: nat, n: nat)
    requires m < LIMIT && n < LIMIT && Length(m) == Length(n)
    ensures m == n
  {
    BigEndianInjective(m, n, 8);
  }

  /** A tag and a length in front of equal bytes are equal, and so is what follows them. */
  lemma HeadSplit(tag: Bytes, m: nat, n: nat, r: Bytes, s: Bytes)
    requires m < LIMIT && n < LIMIT && (tag + Length(m)) + r == (tag + Length(n)) + s
    ensures m == n && r == s
  {
    hide Length;
    assert |Length(m)| == |Length(n)| by { LengthWidth(m); LengthWidth(n); }
    Split(tag + Length(m), r, tag + Length(n), s);
    Split(tag, Length(m), tag, Length(n));
    SameLength(m, n);
  }

  lemma LengthWidth(n: nat)
    ensures |Length(n)| == 8
  {
  }

  lemma ScalarSplit(tag: int, p: Bytes, q: Bytes, r: Bytes, s: Bytes)
    requires |p| < LIMIT && |q| < LIMIT && Scalar(tag, p) + r == Scalar(tag, q) + s
    ensures p == q && r == s
  {
    hide Length;
    Regroup([tag] + Length(|p|), p, r);
    Regroup([tag] + Length(|q|), q, s);
    HeadSplit([tag], |p|, |q|, p + r, q + s);
    Split(p, r, q, s);
  }

  lemma WholeSplit(i: int, j: int, r: Bytes, s: Bytes)
    requires Closed(Whole(i)) && Closed(Whole(j)) && Raw(Whole(i)) + r == Raw(Whole(j)) + s
    ensures i == j && r == s
  {
    var m, n := Magnitude(i), Magnitude(j);
    var a, b := [73, if i < 0 then 45 else 43], [73, if j < 0 then 45 else 43];
    var x, y := BigEndian(m, Width(m)), BigEndian(n, Width(n));
    hide Length, BigEndian, Width;
    assert Raw(Whole(i)) == (a + Length(Width(m))) + x && Raw(Whole(j)) == (b + Length(Width(n))) + y;
    Regroup(a + Length(Width(m)), x, r);
    Regroup(b + Length(Width(n)), y, s);
    assert a == b by { Signs(a, b, Length(Width(m)), Length(Width(n)), x + r, y + s); }
    HeadSplit(a, Width(m), Width(n), x + r, y + s);
    Split(x, r, y, s);
    WidthHolds(m);
    WidthHolds(n);
    BigEndianInjective(m, n, Width(m));
    assert a[1] == b[1];
  }

  lemma Signs(a: Bytes, b: Bytes, x: Bytes, y: Bytes, r: Bytes, s: Bytes)
    requires |a| == |b| && (a + x) + r == (b + y) + s
    ensures a == b
  {
    Regroup(a, x, r);
    Regroup(b, y, s);
    Split(a, x + r, b, y + s);
  }

  /** Different constructors write different tags. */
  lemma TagsDiffer(v: Value, w: Value, r: Bytes, s: Bytes)
    requires Raw(v) + r == Raw(w) + s
    ensures TagOf(v) == TagOf(w)
  {
    FirstByte(v);
    FirstByte(w);
    hide Raw, TagOf;
    assert (Raw(v) + r)[0] == Raw(v)[0];
    assert (Raw(w) + s)[0] == Raw(w)[0];
  }

  lemma FirstByte(v: Value)
    ensures Raw(v) != [] && Raw(v)[0] == TagOf(v)
  {
    hide Length, BigEndian, RawAll, RawFields;
  }

  function TagOf(v: Value): int {
    match v
    case Nothing => 78
    case Flag(on) => if on then 84 else 70
    case Whole(_) => 73
    case Binary(_) => 68
    case Text(_) => 83
    case Blob(_) => 66
    case Member(_, _) => 69
    case Tuple(_) => 65
    case Record(_, _) => 82
  }

  /** One reading only: what starts with the encoding of a value starts with that of no other. */
  lemma {:induction false} UniqueParse(v: Value, w: Value, r: Bytes, s: Bytes)
    requires Closed(v) && Closed(w) && Raw(v) + r == Raw(w) + s
    ensures v == w && r == s
    decreases v, 1
  {
    TagsDiffer(v, w, r, s);
    hide Raw, RawAll, RawFields;
    match v
    case Tuple(items) =>
      ItemsSplit(items, w.items, r, s);
      UniqueItems(items, w.items, r, s);
    case Record(name, fields) =>
      RecordSplit(name, w.name, fields, w.fields, r, s);
      UniqueFields(fields, w.fields, r, s);
    case _ => FlatParse(v, w, r, s);
  }

  /** Values without parts. */
  lemma FlatParse(v: Value, w: Value, r: Bytes, s: Bytes)
    requires !v.Tuple? && !v.Record? && TagOf(v) == TagOf(w)
    requires Closed(v) && Closed(w) && Raw(v) + r == Raw(w) + s
    ensures v == w && r == s
  {
    hide Scalar, Length, RawAll, RawFields, BigEndian, Width;
    match v
    case Nothing => Split([78], r, [78], s);
    case Flag(on) => Split(Raw(v), r, Raw(w), s);
    case Whole(i) => WholeSplit(i, w.i, r, s);
    case Binary(bits) => ScalarSplit(68, bits, w.bits, r, s);
    case Text(utf8) => ScalarSplit(83, utf8, w.utf8, r, s);
    case Blob(bytes) => ScalarSplit(66, bytes, w.bytes, r, s);
    case Member(kind, value) => MemberSplit(kind, value, w.kind, w.value, r, s);
  }

  lemma ItemsSplit(items: seq<Value>, others: seq<Value>, r: Bytes, s: Bytes)
    requires |items| < LIMIT && |others| < LIMIT && Raw(Tuple(items)) + r == Raw(Tuple(others)) + s
    ensures |items| == |others| && RawAll(items) + r == RawAll(others) + s
  {
    hide Length, RawAll;
    CountSplit([65], RawAll(items), RawAll(others), |items|, |others|, r, s);
  }

  /** A tag, a count and the counted contents. */
  lemma CountSplit(tag: Bytes, x: Bytes, y: Bytes, m: nat, n: nat, r: Bytes, s: Bytes)
    requires m < LIMIT && n < LIMIT && ((tag + Length(m)) + x) + r == ((tag + Length(n)) + y) + s
    ensures m == n && x + r == y + s
  {
    hide Length;
    Regroup(tag + Length(m), x, r);
    Regroup(tag + Length(n), y, s);
    HeadSplit(tag, m, n, x + r, y + s);
  }

  lemma MemberSplit(a: Bytes, b: Bytes, c: Bytes, d: Bytes, r: Bytes, s: Bytes)
    requires |a| < LIMIT && |b| < LIMIT && |c| < LIMIT && |d| < LIMIT
    requires Raw(Member(a, b)) + r == Raw(Member(c, d)) + s
    ensures a == c && b == d && r == s
  {
    hide Scalar;
    Regroup([69] + Scalar(83, a), Scalar(83, b), r);
    Regroup([69] + Scalar(83, c), Scalar(83, d), s);
    Regroup([69], Scalar(83, a), Scalar(83, b) + r);
    Regroup([69], Scalar(83, c), Scalar(83, d) + s);
    Split([69], Scalar(83, a) + (Scalar(83, b) + r), [69], Scalar(83, c) + (Scalar(83, d) + s));
    ScalarSplit(83, a, c, Scalar(83, b) + r, Scalar(83, d) + s);
    ScalarSplit(83, b, d, r, s);
  }

  lemma RecordSplit(name: Bytes, other: Bytes, fields: seq<Field>, others: seq<Field>, r: Bytes, s: Bytes)
    requires |name| < LIMIT && |other| < LIMIT && |fields| < LIMIT && |others| < LIMIT
    requires Raw(Record(name, fields)) + r == Raw(Record(other, others)) + s
    ensures name == other && |fields| == |others| && RawFields(fields) + r == RawFields(others) + s
  {
    hide Scalar, Length, RawFields;
    var x, y := RawFields(fields), RawFields(others);
    var m, n := Length(|fields|), Length(|others|);
    NameFirst(Scalar(83, name), m, x, r);
    NameFirst(Scalar(83, other), n, y, s);
    Split([82], Scalar(83, name) + ((m + x) + r), [82], Scalar(83, other) + ((n + y) + s));
    ScalarSplit(83, name, other, (m + x) + r, (n + y) + s);
    NoTag(m, x, r);
    NoTag(n, y, s);
    CountSplit([], x, y, |fields|, |others|, r, s);
  }

  lemma NoTag(m: Bytes, x: Bytes, r: Bytes)
    ensures (([] + m) + x) + r == (m + x) + r
  {
    assert [] + m == m;
  }

  lemma NameFirst(name: Bytes, m: Bytes, x: Bytes, r: Bytes)
    ensures ((([82] + name) + m) + x) + r == [82] + (name + ((m + x) + r))
  {
    Regroup([82] + name, m, x);
    Regroup([82] + name, m + x, r);
    Regroup([82], name, (m + x) + r);
  }

  lemma {:induction false} UniqueItems(a: seq<Value>, b: seq<Value>, r: Bytes, s: Bytes)
    requires |a| == |b| && RawAll(a) + r == RawAll(b) + s
    requires (forall i | 0 <= i < |a| :: Closed(a[i])) && (forall i | 0 <= i < |b| :: Closed(b[i]))
    ensures a == b && r == s
    decreases a, 0
  {
    hide Raw, Closed;
    if a == [] {
      Split([], r, [], s);
    } else {
      Regroup(Raw(a[0]), RawAll(a[1..]), r);
      Regroup(Raw(b[0]), RawAll(b[1..]), s);
      UniqueParse(a[0], b[0], RawAll(a[1..]) + r, RawAll(b[1..]) + s);
      UniqueItems(a[1..], b[1..], r, s);
      assert a == [a[0]] + a[1..] && b == [b[0]] + b[1..];
    }
  }

  lemma {:induction false} UniqueFields(a: seq<Field>, b: seq<Field>, r: Bytes, s: Bytes)
    requires |a| == |b| && RawFields(a) + r == RawFields(b) + s
    requires forall i | 0 <= i < |a| :: |a[i].name| < LIMIT && Closed(a[i].value)
    requires forall i | 0 <= i < |b| :: |b[i].name| < LIMIT && Closed(b[i].value)
    ensures a == b && r == s
    decreases a, 0
  {
    hide Raw, Closed, Scalar;
    if a == [] {
      Split([], r, [], s);
    } else {
      FieldFirst(a, r);
      FieldFirst(b, s);
      var x, y := RawFields(a[1..]) + r, RawFields(b[1..]) + s;
      ScalarSplit(83, a[0].name, b[0].name, Raw(a[0].value) + x, Raw(b[0].value) + y);
      UniqueParse(a[0].value, b[0].value, x, y);
      UniqueFields(a[1..], b[1..], r, s);
      assert a == [a[0]] + a[1..] && b == [b[0]] + b[1..];
    }
  }

  lemma FieldFirst(a: seq<Field>, r: Bytes)
    requires a != []
    ensures RawFields(a) + r == Scalar(83, a[0].name) + (Raw(a[0].value) + (RawFields(a[1..]) + r))
  {
    hide Raw, Scalar;
    Regroup(Scalar(83, a[0].name) + Raw(a[0].value), RawFields(a[1..]), r);
    Regroup(Scalar(83, a[0].name), Raw(a[0].value), RawFields(a[1..]) + r);
  }

  /** Equal bytes, equal values. */
  lemma EncodingInjective(v: Value, w: Value)
    requires Closed(v) && Closed(w)
    ensures Raw(v) == Raw(w) <==> v == w
  {
    hide Raw, Closed;
    if Raw(v) == Raw(w) {
      assert Raw(v) + [] == Raw(w) + [];
      UniqueParse(v, w, [], []);
    }
  }

  /** No encoding is a proper prefix of another. */
  lemma EncodingPrefixFree(v: Value, w: Value)
    requires Closed(v) && Closed(w) && Raw(v) <= Raw(w)
    ensures v == w
  {
    hide Raw, Closed;
    var rest := Raw(w)[|Raw(v)|..];
    assert Raw(v) + rest == Raw(w) + [];
    UniqueParse(v, w, rest, []);
  }
}
