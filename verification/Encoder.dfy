/** The bounded encoder and its identities. */
module Encoder {
  // The bounded encoder: one traversal with a shared node counter, early outer bounds, schema
  // checks and set-field checks. It accepts exactly the well-formed values that fit the bounds,
  // and what it then returns is the canonical encoding.

  import opened Options
  import opened Lex
  import opened Encoding

  datatype Limits = Limits(maxNodes: nat, maxDepth: nat, maxScalar: nat)

  datatype Kind = TextKind | WholeKind | TupleKind | MemberKind(of: Bytes) | RecordKind(record: Bytes)

  /** A schema field; `setOf` names the record type of the members of a set-valued tuple. */
  datatype Spec = Spec(name: Bytes, kind: Kind, setOf: Option<Bytes>)

  /** The record types with their fields, and the closed vocabulary of each enum. */
  datatype Schemas = Schemas(records: map<Bytes, seq<Spec>>, enums: map<Bytes, set<Bytes>>)

  datatype Encoded = Rejected | Encoded(bytes: Bytes, nodes: nat)

  datatype Parts = BadParts | Parts(parts: seq<Bytes>, nodes: nat)

  // ----- the checks ---------------------------------------------------------------------

  /** Exponent bits all set: an infinity or not a number. */
  predicate Finite(bits: Bytes) {
    |bits| == 8 && !(bits[0] % 128 == 127 && bits[1] / 16 == 15)
  }

  predicate ScalarOk(lim: Limits, size: nat) { size <= lim.maxScalar && size < LIMIT }

  predicate KindOk(kind: Kind, v: Value) {
    match kind
    case TextKind => v.Text? && v.utf8 != []
    case WholeKind => v.Whole? && v.i >= 0
    case TupleKind => v.Tuple?
    case MemberKind(of) => v.Member? && v.kind == of
    case RecordKind(record) => v.Record? && v.name == record
  }

  predicate InVocabulary(schemas: Schemas, kind: Bytes, value: Bytes) {
    kind in schemas.enums && value in schemas.enums[kind]
  }

  predicate FieldsOk(specs: seq<Spec>, fields: seq<Field>) {
    && |specs| == |fields|
    && forall i | 0 <= i < |specs| :: fields[i].name == specs[i].name && KindOk(specs[i].kind, fields[i].value)
  }

  predicate LexLt(a: Bytes, b: Bytes) { a != b && LexLe(a, b) }

  predicate StrictlySorted(parts: seq<Bytes>) { forall i, j | 0 <= i < j < |parts| :: LexLt(parts[i], parts[j]) }

  predicate MembersOk(setOf: Option<Bytes>, items: seq<Value>) {
    setOf.Some? ==> forall i | 0 <= i < |items| :: items[i].Record? && items[i].name == setOf.value
  }

  function Joined(parts: seq<Bytes>): Bytes { if parts == [] then [] else parts[0] + Joined(parts[1..]) }

  // ----- the traversal ------------------------------------------------------------------

  function EncodeText(lim: Limits, text: Bytes, depth: nat, nodes: nat): Encoded {
    if nodes + 1 > lim.maxNodes || depth > lim.maxDepth || !ScalarOk(lim, |text|) then Rejected
    else Encoded(Scalar(83, text), nodes + 1)
  }

  /** Encode one node; `nodes` is the number already visited anywhere in the value. */
  function Encode(lim: Limits, schemas: Schemas, v: Value, depth: nat, nodes: nat, setOf: Option<Bytes>): Encoded
    decreases v, 2
  {
    if nodes + 1 > lim.maxNodes || depth > lim.maxDepth then Rejected else
      match v
      case Nothing => Encoded([78], nodes + 1)
      case Flag(on) => Encoded(if on then [84] else [70], nodes + 1)
      case Whole(i) => if ScalarOk(lim, Width(Magnitude(i))) then Encoded(Raw(v), nodes + 1) else Rejected
      case Binary(bits) => if Finite(bits) && ScalarOk(lim, |bits|) then Encoded(Scalar(68, bits), nodes + 1) else Rejected
      case Text(utf8) => if ScalarOk(lim, |utf8|) then Encoded(Scalar(83, utf8), nodes + 1) else Rejected
      case Blob(bytes) => if ScalarOk(lim, |bytes|) then Encoded(Scalar(66, bytes), nodes + 1) else Rejected
      case Member(kind, value) =>
        if InVocabulary(schemas, kind, value) then EncodeMember(lim, kind, value, depth, nodes + 1) else Rejected
      case Tuple(items) => EncodeTuple(lim, schemas, items, depth, nodes + 1, setOf)
      case Record(name, fields) => EncodeRecord(lim, schemas, name, fields, depth, nodes + 1)
  }

  function EncodeMember(lim: Limits, kind: Bytes, value: Bytes, depth: nat, nodes: nat): Encoded {
    match EncodeText(lim, kind, depth + 1, nodes)
    case Rejected => Rejected
    case Encoded(first, n) =>
      match EncodeText(lim, value, depth + 1, n)
      case Rejected => Rejected
      case Encoded(second, m) => Encoded([69] + first + second, m)
  }

  function EncodeTuple(lim: Limits, schemas: Schemas, items: seq<Value>, depth: nat, nodes: nat, setOf: Option<Bytes>): Encoded
    decreases items, 1
  {
    if |items| > lim.maxNodes - nodes || !MembersOk(setOf, items) then Rejected else
      match EncodeAll(lim, schemas, items, depth + 1, nodes)
      case BadParts => Rejected
      case Parts(parts, n) =>
        if (setOf.Some? && !StrictlySorted(parts)) || |items| >= LIMIT then Rejected
        else Encoded([65] + Length(|items|) + Joined(parts), n)
  }

  function EncodeAll(lim: Limits, schemas: Schemas, items: seq<Value>, depth: nat, nodes: nat): Parts
    decreases items, 0
  {
    if items == [] then Parts([], nodes) else
      match Encode(lim, schemas, items[0], depth, nodes, None)
      case Rejected => BadParts
      case Encoded(first, n) =>
        match EncodeAll(lim, schemas, items[1..], depth, n)
        case BadParts => BadParts
        case Parts(rest, m) => Parts([first] + rest, m)
  }

  function EncodeRecord(lim: Limits, schemas: Schemas, name: Bytes, fields: seq<Field>, depth: nat, nodes: nat): Encoded
    decreases fields, 1
  {
    if name !in schemas.records || !FieldsOk(schemas.records[name], fields)
       || (exists i :: 0 <= i < |fields| && fields[i].value.Tuple? && |fields[i].value.items| > lim.maxNodes - nodes - 1) then Rejected
    else match EncodeText(lim, name, depth + 1, nodes)
      case Rejected => Rejected
      case Encoded(first, n) =>
        if |fields| >= LIMIT then Rejected else
        match EncodeFields(lim, schemas, schemas.records[name], fields, depth + 1, n)
        case Rejected => Rejected
        case Encoded(rest, m) => Encoded([82] + first + Length(|fields|) + rest, m)
  }

  function EncodeFields(lim: Limits, schemas: Schemas, specs: seq<Spec>, fields: seq<Field>, depth: nat, nodes: nat): Encoded
    requires |specs| == |fields|
    decreases fields, 0
  {
    if fields == [] then Encoded([], nodes) else
      match EncodeText(lim, fields[0].name, depth, nodes)
      case Rejected => Rejected
      case Encoded(head, n) =>
        match Encode(lim, schemas, fields[0].value, depth, n, specs[0].setOf)
        case Rejected => Rejected
        case Encoded(value, m) =>
          match EncodeFields(lim, schemas, specs[1..], fields[1..], depth, m)
          case Rejected => Rejected
          case Encoded(rest, k) => Encoded(head + value + rest, k)
  }

  // ----- the specification --------------------------------------------------------------

  /** Nodes of a value, counting the names of records and fields and the two parts of an enum member. */
  function Size(v: Value): nat
    decreases v
  {
    match v
    case Member(_, _) => 3
    case Tuple(items) => 1 + SizeAll(items)
    case Record(_, fields) => 2 + SizeFields(fields)
    case _ => 1
  }

  function SizeAll(items: seq<Value>): nat
    decreases items
  {
    if items == [] then 0 else Size(items[0]) + SizeAll(items[1..])
  }

  function SizeFields(fields: seq<Field>): nat
    decreases fields
  {
    if fields == [] then 0 else 1 + Size(fields[0].value) + SizeFields(fields[1..])
  }

  function Raws(items: seq<Value>): seq<Bytes>
    decreases items
  {
    if items == [] then [] else [Raw(items[0])] + Raws(items[1..])
  }

  /** Short enough for the limits and for the eight bytes of a length. */
  ghost predicate Short(lim: Limits, size: nat) { !(size > lim.maxScalar || size >= LIMIT) }

  /** The encodings of the items follow each other in byte order, each one different from the one before. */
  ghost predicate RawsAscend(items: seq<Value>) {
    forall i, j | 0 <= i < |items| && 0 <= j < |items| && i < j :: Raw(items[i]) != Raw(items[j]) && LexLe(Raw(items[i]), Raw(items[j]))
  }

  /** The fields of a schema in its order, each of its kind. */
  ghost predicate Conform(specs: seq<Spec>, fields: seq<Field>) {
    && |fields| == |specs|
    && forall i | 0 <= i < |fields| ::
         var f, v := specs[i], fields[i].value;
         && fields[i].name == f.name
         && (f.kind.TextKind? ==> v.Text? && |v.utf8| >= 1)
         && (f.kind.WholeKind? ==> v.Whole? && !(v.i < 0))
         && (f.kind.TupleKind? ==> v.Tuple?)
         && (f.kind.MemberKind? ==> v.Member? && v.kind == f.kind.of)
         && (f.kind.RecordKind? ==> v.Record? && v.name == f.kind.record)
  }

  /** The set-field check of the traversal accepts the records of one type in byte order, without duplicates. */
  lemma SetFieldIs(setOf: Option<Bytes>, items: seq<Value>)
    ensures MembersOk(setOf, items) && (setOf.Some? ==> StrictlySorted(Raws(items)))
       <==> (setOf.Some? ==> (forall x | x in items :: x.Record? && x.name == setOf.value) && RawsAscend(items))
  {
    hide Raw;
    RawsAt(items);
    if setOf.Some? {
      assert MembersOk(setOf, items) <==> forall x | x in items :: x.Record? && x.name == setOf.value;
      SortedIs(items);
    }
  }

  lemma SortedIs(items: seq<Value>)
    ensures StrictlySorted(Raws(items)) <==> RawsAscend(items)
  {
    hide Raw;
    RawsAt(items);
    if StrictlySorted(Raws(items)) {
      forall i, j | 0 <= i < |items| && 0 <= j < |items| && i < j ensures Raw(items[i]) != Raw(items[j]) && LexLe(Raw(items[i]), Raw(items[j])) {
        assert LexLt(Raws(items)[i], Raws(items)[j]);
      }
    }
  }

  lemma {:induction false} RawsAt(items: seq<Value>)
    ensures |Raws(items)| == |items| && forall i | 0 <= i < |items| :: Raws(items)[i] == Raw(items[i])
    decreases items
  {
    hide Raw;
    if items != [] { RawsAt(items[1..]); }
  }

  /** Well formed at this depth: scalars in bounds, enum values known, schemas met, set fields strictly sorted. */
  ghost predicate Sane(lim: Limits, schemas: Schemas, v: Value, depth: nat, setOf: Option<Bytes>)
    decreases v, 1
  {
    && depth <= lim.maxDepth
    && match v
       case Nothing => true
       case Flag(_) => true
       case Whole(i) => Short(lim, Width(Magnitude(i)))
       case Binary(bits) => |bits| == 8 && (bits[0] % 128 != 127 || bits[1] / 16 != 15) && Short(lim, 8)
       case Text(utf8) => Short(lim, |utf8|)
       case Blob(bytes) => Short(lim, |bytes|)
       case Member(kind, value) =>
         && kind in schemas.enums && value in schemas.enums[kind]
         && depth < lim.maxDepth && Short(lim, |kind|) && Short(lim, |value|)
       case Tuple(items) =>
         && |items| < LIMIT
         && (setOf.Some? ==> (forall x | x in items :: x.Record? && x.name == setOf.value) && RawsAscend(items))
         && SaneAll(lim, schemas, items, depth + 1)
       case Record(name, fields) =>
         && depth < lim.maxDepth && Short(lim, |name|) && |fields| < LIMIT
         && name in schemas.records && Conform(schemas.records[name], fields)
         && SaneFields(lim, schemas, schemas.records[name], fields, depth + 1)
  }

  ghost predicate SaneAll(lim: Limits, schemas: Schemas, items: seq<Value>, depth: nat)
    decreases items, 0
  {
    items != [] ==> Sane(lim, schemas, items[0], depth, None) && SaneAll(lim, schemas, items[1..], depth)
  }

  ghost predicate SaneFields(lim: Limits, schemas: Schemas, specs: seq<Spec>, fields: seq<Field>, depth: nat)
    requires |specs| == |fields|
    decreases fields, 0
  {
    fields != [] ==>
      && depth <= lim.maxDepth && Short(lim, |fields[0].name|)
      && Sane(lim, schemas, fields[0].value, depth, specs[0].setOf)
      && SaneFields(lim, schemas, specs[1..], fields[1..], depth)
  }

  // ----- the encoder meets the specification --------------------------------------------

  lemma {:induction false} JoinedRaws(items: seq<Value>)
    ensures Joined(Raws(items)) == RawAll(items) && |Raws(items)| == |items|
    decreases items
  {
    if items != [] { JoinedRaws(items[1..]); }
  }

  lemma {:induction false} SizeAtLeast(items: seq<Value>)
    ensures SizeAll(items) >= |items|
    decreases items
  {
    if items != [] {
      SizeAtLeast(items[1..]);
      assert Size(items[0]) >= 1;
    }
  }

  /** A tuple field alone is no larger than all the fields. */
  lemma {:induction false} FieldWithin(fields: seq<Field>, i: nat)
    requires i < |fields| && fields[i].value.Tuple?
    ensures |fields[i].value.items| + 2 <= SizeFields(fields)
    decreases fields
  {
    if i == 0 { SizeAtLeast(fields[0].value.items); } else { FieldWithin(fields[1..], i - 1); }
  }

  /** One traversal accepts exactly what fits, and returns the canonical bytes and the exact node count. */
  lemma {:induction false} EncodeExact(lim: Limits, schemas: Schemas, v: Value, depth: nat, nodes: nat, setOf: Option<Bytes>)
    ensures Encode(lim, schemas, v, depth, nodes, setOf)
            == if Sane(lim, schemas, v, depth, setOf) && nodes + Size(v) <= lim.maxNodes then Encoded(Raw(v), nodes + Size(v)) else Rejected
    decreases v, 2
  {
    hide Raw, Scalar, Length, Width, EncodeTuple, SaneAll, StrictlySorted;
    match v
    case Tuple(items) =>
      SetFieldIs(setOf, items);
      if nodes + 1 <= lim.maxNodes { TupleExact(lim, schemas, items, depth, nodes + 1, setOf); }
      RawTuple(items);
    case Record(name, fields) => RecordExact(lim, schemas, name, fields, depth, nodes);
    case Member(kind, value) => RawMember(kind, value);
    case _ => RawScalars(v);
  }

  lemma {:induction false} TupleExact(lim: Limits, schemas: Schemas, items: seq<Value>, depth: nat, nodes: nat, setOf: Option<Bytes>)
    requires nodes <= lim.maxNodes
    ensures EncodeTuple(lim, schemas, items, depth, nodes, setOf)
            == if |items| < LIMIT && MembersOk(setOf, items) && (setOf.Some? ==> StrictlySorted(Raws(items)))
                  && SaneAll(lim, schemas, items, depth + 1) && nodes + SizeAll(items) <= lim.maxNodes
               then Encoded([65] + Length(|items|) + RawAll(items), nodes + SizeAll(items)) else Rejected
    decreases items, 1
  {
    hide Raw, Length, SaneAll, EncodeAll, StrictlySorted, MembersOk, Raws, Joined, RawAll, SizeAll;
    EncodeAllExact(lim, schemas, items, depth + 1, nodes);
    JoinedRaws(items);
    SizeAtLeast(items);
  }

  lemma RawTuple(items: seq<Value>)
    ensures Raw(Tuple(items)) == [65] + Length(|items|) + RawAll(items)
  {
  }

  lemma RawMember(kind: Bytes, value: Bytes)
    ensures Raw(Member(kind, value)) == [69] + Scalar(83, kind) + Scalar(83, value)
  {
  }

  lemma RawScalars(v: Value)
    ensures v.Nothing? ==> Raw(v) == [78]
    ensures v.Flag? ==> Raw(v) == if v.on then [84] else [70]
    ensures v.Binary? ==> Raw(v) == Scalar(68, v.bits)
    ensures v.Text? ==> Raw(v) == Scalar(83, v.utf8)
    ensures v.Blob? ==> Raw(v) == Scalar(66, v.bytes)
  {
  }

  lemma {:induction false} EncodeAllExact(lim: Limits, schemas: Schemas, items: seq<Value>, depth: nat, nodes: nat)
    requires nodes <= lim.maxNodes
    ensures EncodeAll(lim, schemas, items, depth, nodes)
            == if SaneAll(lim, schemas, items, depth) && nodes + SizeAll(items) <= lim.maxNodes then Parts(Raws(items), nodes + SizeAll(items)) else BadParts
    decreases items, 0
  {
    hide Raw, Encode, Sane, Size;
    if items != [] {
      EncodeExact(lim, schemas, items[0], depth, nodes, None);
      if nodes + Size(items[0]) <= lim.maxNodes {
        EncodeAllExact(lim, schemas, items[1..], depth, nodes + Size(items[0]));
      }
    }
  }

  lemma {:induction false} RecordExact(lim: Limits, schemas: Schemas, name: Bytes, fields: seq<Field>, depth: nat, nodes: nat)
    ensures var v := Record(name, fields);
            Encode(lim, schemas, v, depth, nodes, None)
            == if Sane(lim, schemas, v, depth, None) && nodes + Size(v) <= lim.maxNodes then Encoded(Raw(v), nodes + Size(v)) else Rejected
    ensures forall setOf :: Encode(lim, schemas, Record(name, fields), depth, nodes, setOf) == Encode(lim, schemas, Record(name, fields), depth, nodes, None)
    ensures forall setOf :: Sane(lim, schemas, Record(name, fields), depth, setOf) == Sane(lim, schemas, Record(name, fields), depth, None)
    decreases fields, 1
  {
    hide Scalar, Length, RawFields;
    if name in schemas.records && FieldsOk(schemas.records[name], fields) {
      if nodes + 2 <= lim.maxNodes { EncodeFieldsExact(lim, schemas, schemas.records[name], fields, depth + 1, nodes + 2); }
      forall i | 0 <= i < |fields| && fields[i].value.Tuple? ensures |fields[i].value.items| + 2 <= SizeFields(fields) {
        FieldWithin(fields, i);
      }
    }
  }

  lemma {:induction false} EncodeFieldsExact(lim: Limits, schemas: Schemas, specs: seq<Spec>, fields: seq<Field>, depth: nat, nodes: nat)
    requires |specs| == |fields| && nodes <= lim.maxNodes
    ensures EncodeFields(lim, schemas, specs, fields, depth, nodes)
            == if SaneFields(lim, schemas, specs, fields, depth) && nodes + SizeFields(fields) <= lim.maxNodes
               then Encoded(RawFields(fields), nodes + SizeFields(fields)) else Rejected
    decreases fields, 0
  {
    hide Raw, Encode, Sane, Size, Scalar;
    if fields != [] && nodes + 1 <= lim.maxNodes {
      EncodeExact(lim, schemas, fields[0].value, depth, nodes + 1, specs[0].setOf);
      if nodes + 1 + Size(fields[0].value) <= lim.maxNodes {
        EncodeFieldsExact(lim, schemas, specs[1..], fields[1..], depth, nodes + 1 + Size(fields[0].value));
      }
    }
  }

  // ----- identities ---------------------------------------------------------------------

  lemma {:induction false} SaneClosed(lim: Limits, schemas: Schemas, v: Value, depth: nat, setOf: Option<Bytes>)
    requires Sane(lim, schemas, v, depth, setOf)
    ensures Closed(v)
    decreases v, 1
  {
    hide Width;
    match v
    case Tuple(items) => SaneAllClosed(lim, schemas, items, depth + 1);
    case Record(name, fields) => SaneFieldsClosed(lim, schemas, schemas.records[name], fields, depth + 1);
    case _ =>
  }

  lemma {:induction false} SaneAllClosed(lim: Limits, schemas: Schemas, items: seq<Value>, depth: nat)
    requires SaneAll(lim, schemas, items, depth)
    ensures forall i | 0 <= i < |items| :: Closed(items[i])
    decreases items, 0
  {
    if items != [] {
      SaneClosed(lim, schemas, items[0], depth, None);
      SaneAllClosed(lim, schemas, items[1..], depth);
    }
  }

  lemma {:induction false} SaneFieldsClosed(lim: Limits, schemas: Schemas, specs: seq<Spec>, fields: seq<Field>, depth: nat)
    requires |specs| == |fields| && SaneFields(lim, schemas, specs, fields, depth)
    ensures forall i | 0 <= i < |fields| :: |fields[i].name| < LIMIT && Closed(fields[i].value)
    decreases fields, 0
  {
    if fields != [] {
      SaneClosed(lim, schemas, fields[0].value, depth, specs[0].setOf);
      SaneFieldsClosed(lim, schemas, specs[1..], fields[1..], depth);
    }
  }

  /** The format marker in front of every identity. */
  const MAGIC: Bytes := [68, 71, 67, 65, 45, 76, 73, 84, 69, 45, 76, 51, 45, 73, 68, 69, 78, 84, 73, 84, 89, 45, 49, 0]

  function IdentityBytes(lim: Limits, schemas: Schemas, v: Value): Option<Bytes> {
    match Encode(lim, schemas, v, 0, 0, None)
    case Rejected => None
    case Encoded(bytes, _) => Some(MAGIC + bytes)
  }

  /** An identity exists exactly for the well-formed values within the bounds. */
  lemma IdentityIff(lim: Limits, schemas: Schemas, v: Value)
    ensures IdentityBytes(lim, schemas, v).Some? <==> Sane(lim, schemas, v, 0, None) && Size(v) <= lim.maxNodes
    ensures IdentityBytes(lim, schemas, v).Some? ==> IdentityBytes(lim, schemas, v).value == MAGIC + Raw(v) && Closed(v)
  {
    hide Sane, Raw, Size, Closed, Encode;
    EncodeExact(lim, schemas, v, 0, 0, None);
    if Sane(lim, schemas, v, 0, None) { SaneClosed(lim, schemas, v, 0, None); }
  }

  /** Under any bounds, one identity is a prefix of another only if the values are the same. */
  lemma IdentityPrefixFree(lim: Limits, mil: Limits, schemas: Schemas, v: Value, w: Value)
    requires IdentityBytes(lim, schemas, v).Some? && IdentityBytes(mil, schemas, w).Some?
    ensures IdentityBytes(lim, schemas, v).value <= IdentityBytes(mil, schemas, w).value <==> v == w
  {
    hide Raw, Closed, IdentityBytes;
    IdentityIff(lim, schemas, v);
    IdentityIff(mil, schemas, w);
    if IdentityBytes(lim, schemas, v).value <= IdentityBytes(mil, schemas, w).value {
      Behind(MAGIC, Raw(v), Raw(w));
      EncodingPrefixFree(v, w);
    }
  }

  lemma Behind(front: Bytes, a: Bytes, b: Bytes)
    requires front + a <= front + b
    ensures a <= b
  {
    forall i | 0 <= i < |a| ensures a[i] == b[i] {
      assert (front + a)[|front| + i] == (front + b)[|front| + i];
    }
  }
}
