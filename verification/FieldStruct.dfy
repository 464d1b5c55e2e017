/** FieldStruct.parse: messages of fields, nested to any depth, read under a schema. */
module FieldStruct {
  import opened Common
  import opened MemShared
  import opened UInts
  import opened Coding

  // ----------------------------------------------------------------------- messages

  datatype Value = UintValue(u: nat) | IntValue(i: int) | BytesValue(b: Bytes) | StructValue(fields: Fields)

  datatype Field = Field(id: nat, value: Value)

  datatype Fields = Nil | Cons(head: Field, tail: Fields)

  /** z_encode_field_uint, z_encode_field_int, z_encode_field_bytes, and a nested message sent as
      bytes. */
  function EncodeValue(v: Value): Bytes
    decreases v
  {
    match v
    case UintValue(u) => EncodeUint(UintBytes(u), u)
    case IntValue(i) => if InInt64(i) then EncodeUint(UintBytes(Unsigned(i)), Unsigned(i)) else []
    case BytesValue(b) => b
    case StructValue(fields) => EncodeMessage(fields)
  }

  function Unsigned(i: int): nat
    requires InInt64(i)
  {
    ZigzagRoundTrip(i);
    EncodeZigzag(i)
  }

  function EncodeMessage(fields: Fields): Bytes
    decreases fields
  {
    match fields
    case Nil => []
    case Cons(f, rest) => EncodeOne(f) + EncodeMessage(rest)
  }

  function EncodeOne(f: Field): Bytes
    decreases f
  {
    var content := EncodeValue(f.value);
    if 0 < |content| < UINT64_LIMIT then EncodeField(f.id, |content|) + content else []
  }

  /** The messages the encoder accepts and the wire can carry. */
  predicate Sendable(fields: Fields)
    decreases fields
  {
    match fields
    case Nil => true
    case Cons(f, rest) => SendableField(f) && Sendable(rest)
  }

  predicate SendableField(f: Field)
    decreases f
  {
    && f.id < 0x1_0000
    && 0 < |EncodeValue(f.value)| < UINT64_LIMIT
    && (match f.value
        case UintValue(u) => u < UINT64_LIMIT
        case IntValue(i) => InInt64(i)
        case BytesValue(_) => true
        case StructValue(fields) => Sendable(fields))
  }

  // ------------------------------------------------------------------------ schemas

  datatype Leaf = LeafUint | LeafInt | LeafBytes | LeafString

  datatype Type = One(leaf: Leaf) | ListOf(leaf: Leaf) | Nested(schema: Schema)

  /** A dictionary from field ids to names and types. */
  datatype Schema = Empty | Entry(id: nat, name: string, typ: Type, more: Schema)

  datatype Known = Known(name: string, typ: Type)

  function Lookup(schema: Schema, id: nat): Option<Known> {
    match schema
    case Empty => None
    case Entry(i, name, typ, more) => if i == id then Some(Known(name, typ)) else Lookup(more, id)
  }

  // ------------------------------------------------------------------------ parsing

  datatype Parsed =
    | ParsedUint(u: nat)
    | ParsedInt(i: int)
    | ParsedBytes(b: Bytes)     // a bytearray
    | ParsedString(b: Bytes)
    | ParsedList(items: seq<Parsed>)
    | ParsedStruct(values: map<string, Parsed>)

  /** The end of a call of parse: its dictionary, an exception, or no end at all. */
  datatype Outcome = Values(values: map<string, Parsed>) | Raised | Loops

  /** z_decode_uint, z_decode_int, z_decode_bytes and z_decode_string on what is left of the
      data; None is an index error. */
  function DecodeLeaf(leaf: Leaf, data: Bytes, length: nat): Option<Parsed> {
    var n := if length < 8 then length else 8;
    match leaf
    case LeafUint => if |data| < n then None else Some(ParsedUint(DecodeUint(data, n)))
    case LeafInt => if |data| < n then None else Some(ParsedInt(DecodeZigzag(DecodeUint(data, n))))
    case LeafBytes => Some(ParsedBytes(Upto(data, length)))
    case LeafString => Some(ParsedString(Upto(data, length)))
  }

  /** Python slices stop at the end. */
  function Upto(data: Bytes, n: nat): Bytes { if n <= |data| then data[..n] else data }
  function After(data: Bytes, n: nat): Bytes { if n <= |data| then data[n..] else [] }

  /** values.setdefault(name, []).append(item): None where that raises. The old value is a list, or a
      bytearray, which takes a number of one byte and a string of one byte. */
  function Append(values: map<string, Parsed>, name: string, item: Parsed): Option<map<string, Parsed>> {
    if name !in values then Some(values[name := ParsedList([item])])
    else
      match values[name]
      case ParsedList(items) => Some(values[name := ParsedList(items + [item])])
      case ParsedBytes(b) =>
        (match ByteOf(item)
         case None => None
         case Some(byte) => Some(values[name := ParsedBytes(b + [byte])]))
      case _ => None
  }

  /** What append of a bytearray makes of its argument. */
  function ByteOf(item: Parsed): Option<byte> {
    match item
    case ParsedUint(u) => if u < 256 then Some(u as byte) else None
    case ParsedInt(i) => if 0 <= i < 256 then Some(i as byte) else None
    case ParsedString(b) => if |b| == 1 then Some(b[0]) else None
    case _ => None
  }

  function StoreLeaf(values: map<string, Parsed>, known: Known, item: Option<Parsed>): Outcome {
    match item
    case None => Raised
    case Some(p) =>
      if known.typ.ListOf? then
        match Append(values, known.name, p)
        case None => Raised
        case Some(after) => Values(after)
      else Values(values[known.name := p])
  }

  /** The loop of parse from `data` on. A head that is cut off makes it go on with the last byte
      alone, for ever if that is a cut-off head too. */
  function ParseFrom(data: Bytes, schema: Schema, values: map<string, Parsed>): Outcome
    decreases |data|, 0
  {
    if data == [] then Values(values)
    else
      match DecodeField(data)
      case None => if |data| == 1 then Loops else ParseFrom(data[|data| - 1..], schema, values)
      case Some(head) =>
        var rest := data[head.elength..];
        match StoreField(rest, head.length, Lookup(schema, head.field_id), values)
        case Values(after) => ParseFrom(After(rest, head.length), schema, after)
        case other => other
  }

  function StoreField(rest: Bytes, length: nat, known: Option<Known>, values: map<string, Parsed>): Outcome
    decreases |rest|, 1
  {
    match known
    case None => Values(values)
    case Some(k) =>
      match k.typ
      case Nested(schema) =>
        (match ParseFrom(Upto(rest, length), schema, map[])
         case Values(nested) => Values(values[k.name := ParsedStruct(nested)])
         case other => other)
      case One(leaf) => StoreLeaf(values, k, DecodeLeaf(leaf, rest, length))
      case ListOf(leaf) => StoreLeaf(values, k, DecodeLeaf(leaf, rest, length))
  }

  // ----------------------------------------------------------- what a message means

  /** The value read from a field sent as `v`. */
  function LeafOf(leaf: Leaf, v: Value): Option<Parsed> {
    match v
    case UintValue(u) => Some(ParsedUint(u))
    case IntValue(i) => Some(ParsedInt(i))
    case BytesValue(b) => Some(if leaf.LeafString? then ParsedString(b) else ParsedBytes(b))
    case StructValue(_) => None
  }

  predicate LeafFits(leaf: Leaf, v: Value) {
    match leaf
    case LeafUint => v.UintValue?
    case LeafInt => v.IntValue?
    case LeafBytes => v.BytesValue?
    case LeafString => v.BytesValue?
  }

  /** Every field the schema knows has the type the schema gives it; others may be anything. */
  predicate Typed(fields: Fields, schema: Schema)
    decreases fields
  {
    match fields
    case Nil => true
    case Cons(f, rest) => TypedField(f, Lookup(schema, f.id)) && Typed(rest, schema)
  }

  predicate TypedField(f: Field, known: Option<Known>)
    decreases f
  {
    match known
    case None => true
    case Some(k) =>
      match k.typ
      case One(leaf) => LeafFits(leaf, f.value)
      case ListOf(leaf) => LeafFits(leaf, f.value)
      case Nested(schema) => f.value.StructValue? && Typed(f.value.fields, schema)
  }

  /** The dictionary of a message, field after field: unknown fields contribute nothing, lists
      collect, anything else is replaced. */
  function Meaning(fields: Fields, schema: Schema, values: map<string, Parsed>): Outcome
    decreases fields
  {
    match fields
    case Nil => Values(values)
    case Cons(f, rest) =>
      match MeaningOfField(f, Lookup(schema, f.id), values)
      case Values(after) => Meaning(rest, schema, after)
      case other => other
  }

  function MeaningOfField(f: Field, known: Option<Known>, values: map<string, Parsed>): Outcome
    decreases f
  {
    match known
    case None => Values(values)
    case Some(k) =>
      match k.typ
      case Nested(schema) =>
        if !f.value.StructValue? then Raised
        else
          (match Meaning(f.value.fields, schema, map[])
           case Values(nested) => Values(values[k.name := ParsedStruct(nested)])
           case other => other)
      case _ => StoreLeaf(values, k, LeafOf(k.typ.leaf, f.value))
  }

  // -------------------------------------------------------------------- round trips

  lemma UintContent(u: nat, rest: Bytes)
    requires u < UINT64_LIMIT
    ensures DecodeUint(EncodeUint(UintBytes(u), u) + rest, UintBytes(u)) == u && 1 <= UintBytes(u) <= 8
  {
    UintBytesLeast(u, UintBytes(u));
    UintRoundTrip(UintBytes(u), u, rest);
  }

  lemma LeafRoundTrip(leaf: Leaf, v: Value, rest: Bytes)
    requires LeafFits(leaf, v) && 0 < |EncodeValue(v)|
    requires v.UintValue? ==> v.u < UINT64_LIMIT
    requires v.IntValue? ==> InInt64(v.i)
    ensures DecodeLeaf(leaf, EncodeValue(v) + rest, |EncodeValue(v)|) == LeafOf(leaf, v)
  {
    hide EncodeUint, DecodeUint, UintBytes;
    match v
    case UintValue(u) => UintContent(u, rest);
    case IntValue(i) => ZigzagRoundTrip(i); UintContent(Unsigned(i), rest);
    case BytesValue(b) => assert (b + rest)[..|b|] == b;
    case StructValue(_) =>
  }

  /** The content of one field, whatever follows it. */
  lemma {:induction false} StoreRoundTrip(f: Field, rest: Bytes, known: Option<Known>, values: map<string, Parsed>)
    requires SendableField(f) && TypedField(f, known)
    ensures var content := EncodeValue(f.value);
            StoreField(content + rest, |content|, known, values) == MeaningOfField(f, known, values)
    decreases f, 0
  {
    var content := EncodeValue(f.value);
    match known
    case None =>
    case Some(k) =>
      match k.typ {
        case Nested(schema) =>
          assert Upto(content + rest, |content|) == content;
          ParseRoundTrip(f.value.fields, [], schema, map[]);
          assert content + [] == content;
          EmptyParse(schema);
        case One(leaf) => LeafRoundTrip(leaf, f.value, rest);
        case ListOf(leaf) => LeafRoundTrip(leaf, f.value, rest);
      }
  }

  lemma EmptyParse(schema: Schema)
    ensures forall values :: ParseFrom([], schema, values) == Values(values)
  {
  }

  /** One field at the front of the data. */
  lemma OneField(f: Field, rest: Bytes, schema: Schema, values: map<string, Parsed>)
    requires SendableField(f) && TypedField(f, Lookup(schema, f.id))
    requires var content := EncodeValue(f.value);
             StoreField(content + rest, |content|, Lookup(schema, f.id), values)
             == MeaningOfField(f, Lookup(schema, f.id), values)
    ensures ParseFrom(EncodeOne(f) + rest, schema, values)
            == match MeaningOfField(f, Lookup(schema, f.id), values)
               case Values(after) => ParseFrom(rest, schema, after)
               case other => other
  {
    hide StoreField, MeaningOfField, EncodeValue, TypedField, EncodeField, DecodeField;
    var content := EncodeValue(f.value);
    var head := EncodeField(f.id, |content|);
    FieldRoundTrip(f.id, |content|, content + rest);
    assert EncodeOne(f) + rest == head + (content + rest);
    assert (head + (content + rest))[|head|..] == content + rest;
    assert After(content + rest, |content|) == rest;
  }

  /** Parsing an encoded message gives its dictionary, and goes on with what follows. */
  lemma {:induction false} ParseRoundTrip(fields: Fields, suffix: Bytes, schema: Schema, values: map<string, Parsed>)
    requires Sendable(fields) && Typed(fields, schema)
    ensures ParseFrom(EncodeMessage(fields) + suffix, schema, values)
            == match Meaning(fields, schema, values)
               case Values(after) => ParseFrom(suffix, schema, after)
               case other => other
    decreases fields, 1
  {
    hide ParseFrom, StoreField, EncodeOne, EncodeValue, SendableField, TypedField, MeaningOfField;
    match fields
    case Nil => assert EncodeMessage(fields) + suffix == suffix;
    case Cons(f, rest) =>
      var later := EncodeMessage(rest) + suffix;
      StoreRoundTrip(f, later, Lookup(schema, f.id), values);
      OneField(f, later, schema, values);
      assert EncodeMessage(fields) + suffix == EncodeOne(f) + later;
      var one := MeaningOfField(f, Lookup(schema, f.id), values);
      if one.Values? { ParseRoundTrip(rest, suffix, schema, one.values); }
  }

  /** A whole message: the dictionary is that of the message. */
  lemma MessageRoundTrip(fields: Fields, schema: Schema)
    requires Sendable(fields) && Typed(fields, schema)
    ensures ParseFrom(EncodeMessage(fields), schema, map[]) == Meaning(fields, schema, map[])
  {
    ParseRoundTrip(fields, [], schema, map[]);
    assert EncodeMessage(fields) + [] == EncodeMessage(fields);
    EmptyParse(schema);
  }

  // ----------------------------------------------------------- no surprises

  /** A name stands for lists throughout, or for no list, at every level. */
  predicate NamesApart(schema: Schema) {
    match schema
    case Empty => true
    case Entry(id, name, typ, more) => NameKind(more, name, typ.ListOf?) && NamesApart(more) && TypeApart(typ)
  }

  predicate TypeApart(typ: Type) { typ.Nested? ==> NamesApart(typ.schema) }

  predicate NameKind(schema: Schema, name: string, list: bool) {
    match schema
    case Empty => true
    case Entry(_, n, typ, more) => (n == name ==> typ.ListOf? == list) && NameKind(more, name, list)
  }

  /** Every value has the kind its name has in the schema. */
  predicate KindsKept(values: map<string, Parsed>, schema: Schema) {
    forall name, list | name in values && NameKind(schema, name, list) && HasName(schema, name) ::
      values[name].ParsedList? == list
  }

  predicate HasName(schema: Schema, name: string) {
    match schema
    case Empty => false
    case Entry(_, n, _, more) => n == name || HasName(more, name)
  }

  lemma {:induction false} LookupKind(schema: Schema, id: nat)
    requires NamesApart(schema) && Lookup(schema, id).Some?
    ensures var k := Lookup(schema, id).value;
            HasName(schema, k.name) && NameKind(schema, k.name, k.typ.ListOf?) && TypeApart(k.typ)
  {
    var k := Lookup(schema, id).value;
    if schema.id != id {
      LookupKind(schema.more, id);
      KindUnique(schema.more, schema.name, schema.typ.ListOf?, k);
    }
  }

  lemma KindUnique(schema: Schema, name: string, list: bool, k: Known)
    requires NameKind(schema, name, list) && HasName(schema, k.name) && NameKind(schema, k.name, k.typ.ListOf?)
    ensures k.name == name ==> k.typ.ListOf? == list
  {
    if k.name == name { SameKind(schema, name, list, k.typ.ListOf?); }
  }

  lemma {:induction false} SameKind(schema: Schema, name: string, a: bool, b: bool)
    requires NameKind(schema, name, a) && NameKind(schema, name, b) && HasName(schema, name)
    ensures a == b
  {
    if schema.name != name { SameKind(schema.more, name, a, b); }
  }

  /** With such a schema a well-typed message always has a dictionary: parse neither raises nor loops. */
  lemma {:induction false} MeaningExists(fields: Fields, schema: Schema, values: map<string, Parsed>)
    requires Typed(fields, schema) && NamesApart(schema) && KindsKept(values, schema)
    ensures Meaning(fields, schema, values).Values?
    decreases fields
  {
    if fields.Cons? {
      var f := fields.head;
      var known := Lookup(schema, f.id);
      if known.Some? {
        LookupKind(schema, f.id);
        var k := known.value;
        if k.typ.Nested? { MeaningExists(f.value.fields, k.typ.schema, map[]); }
        var one := MeaningOfField(f, known, values);
        assert one.Values?;
        forall name, list | name in one.values && NameKind(schema, name, list) && HasName(schema, name)
          ensures one.values[name].ParsedList? == list
        {
          if name == k.name { SameKind(schema, name, list, k.typ.ListOf?); }
        }
        MeaningExists(fields.tail, schema, one.values);
      } else {
        MeaningExists(fields.tail, schema, values);
      }
    }
  }

  // ------------------------------------------------------------------ the loop itself

  /** FieldStruct.parse. */
  method Parse(data0: Bytes, schema: Schema) returns (r: Outcome)
    ensures r == ParseFrom(data0, schema, map[])
    decreases |data0|, 0
  {
    var data, values := data0, map[];
    while data != []
      invariant |data| <= |data0|
      invariant ParseFrom(data0, schema, map[]) == ParseFrom(data, schema, values)
      decreases |data|
    {
      var head := DecodeField(data);
      if head.None? {
        if |data| == 1 {
          return Loops;   // data[-1:] is data again
        }
        data := data[|data| - 1..];
        continue;
      }
      data := data[head.value.elength..];
      var known := Lookup(schema, head.value.field_id);
      var stored := Store(data, head.value.length, known, values);
      if !stored.Values? {
        return stored;
      }
      values := stored.values;
      data := After(data, head.value.length);
    }
    return Values(values);
  }

  /** The body of the loop for one field. */
  method Store(data: Bytes, length: nat, known: Option<Known>, values: map<string, Parsed>) returns (r: Outcome)
    ensures r == StoreField(data, length, known, values)
    decreases |data|, 1
  {
    if known.None? {
      return Values(values);
    }
    var k := known.value;
    if k.typ.Nested? {
      var nested := Parse(Upto(data, length), k.typ.schema);
      if nested.Values? {
        return Values(values[k.name := ParsedStruct(nested.values)]);
      }
      return nested;
    }
    return StoreLeaf(values, k, DecodeLeaf(k.typ.leaf, data, length));
  }

  // -------------------------------------------------------- when parse does not end

  /** A byte that announces a length or an id behind it. */
  predicate Announces(b: byte) { b >= 128 || b % 16 < 2 }

  lemma OneByteHead(b: byte)
    ensures DecodeField([b]) == if Announces(b) then None else Some(Head(1, b as nat % 16 - 2, 1 + b as nat / 16 % 8))
  {
    HeadBits(b);
  }

  /** A stray last byte: parse goes round for ever if and only if the byte announces a length or
      an id that is not there. */
  lemma LastByteLoops(b: byte, schema: Schema, values: map<string, Parsed>)
    ensures ParseFrom([b], schema, values) == Loops <==> Announces(b)
  {
    hide DecodeField;
    OneByteHead(b);
    assert |[b]| == 1;
    if !Announces(b) {
      var head := DecodeField([b]).value;
      assert [b][head.elength..] == [];
      EmptyParse(schema);
      StoreNothing(head.length, Lookup(schema, head.field_id), values);
    }
  }

  lemma StoreNothing(length: nat, known: Option<Known>, values: map<string, Parsed>)
    ensures StoreField([], length, known, values) != Loops
  {
    if known.Some? && known.value.typ.Nested? { EmptyParse(known.value.typ.schema); }
  }

  /** What can be told from the heads alone, without a dictionary. The walk over the fields comes
      to a head that is cut off, in the data or in a nested slice, while the last byte there is
      such a head too. */
  predicate Endless(data: Bytes, schema: Schema)
    decreases |data|
  {
    data != [] &&
    match DecodeField(data)
    case None => Announces(data[|data| - 1])
    case Some(head) =>
      var rest, known := data[head.elength..], Lookup(schema, head.field_id);
      || (known.Some? && known.value.typ.Nested? && Endless(Upto(rest, head.length), known.value.typ.schema))
      || (Complete(rest, head.length, known) && Endless(After(rest, head.length), schema))
  }

  /** The content of the field is there, as far as its type asks for it. */
  predicate Complete(rest: Bytes, length: nat, known: Option<Known>)
    decreases |rest|, 1
  {
    match known
    case None => true
    case Some(k) =>
      match k.typ
      case Nested(schema) => Whole(Upto(rest, length), schema)
      case One(leaf) => leaf.LeafBytes? || leaf.LeafString? || |rest| >= length || |rest| >= 8
      case ListOf(leaf) => leaf.LeafBytes? || leaf.LeafString? || |rest| >= length || |rest| >= 8
  }

  /** The walk comes to the end of the data. */
  predicate Whole(data: Bytes, schema: Schema)
    decreases |data|, 0
  {
    data == [] ||
    match DecodeField(data)
    case None => |data| > 1 && Whole(data[|data| - 1..], schema)
    case Some(head) =>
      var rest := data[head.elength..];
      Complete(rest, head.length, Lookup(schema, head.field_id)) && Whole(After(rest, head.length), schema)
  }

  lemma {:induction false} EndlessNotWhole(data: Bytes, schema: Schema)
    ensures !(Endless(data, schema) && Whole(data, schema))
    decreases |data|
  {
    hide DecodeField;
    if data != [] {
      var b := data[|data| - 1];
      OneByteHead(b);
      assert data[|data| - 1..] == [b];
      match DecodeField(data)
      case None =>
      case Some(head) =>
        var rest, known := data[head.elength..], Lookup(schema, head.field_id);
        if known.Some? && known.value.typ.Nested? { EndlessNotWhole(Upto(rest, head.length), known.value.typ.schema); }
        EndlessNotWhole(After(rest, head.length), schema);
    }
  }

  /** A call ends as the walk says. That a name stands for a list in one entry and for something
      else in another is the only thing the walk does not see. */
  predicate AsWalked(data: Bytes, schema: Schema, values: map<string, Parsed>) {
    var r := ParseFrom(data, schema, values);
    && (r.Loops? ==> Endless(data, schema)) && (Endless(data, schema) ==> !r.Values?)
    && (r.Values? ==> Whole(data, schema)) && (Whole(data, schema) ==> !r.Loops?)
    && (NamesApart(schema) && KindsKept(values, schema) ==>
        && (Endless(data, schema) ==> r.Loops?)
        && (Whole(data, schema) ==> r.Values?))
  }

  /** The same for one field. */
  predicate StoredAsWalked(rest: Bytes, length: nat, known: Option<Known>, schema: Schema,
                           values: map<string, Parsed>)
  {
    var r := StoreField(rest, length, known, values);
    var inner := known.Some? && known.value.typ.Nested? && Endless(Upto(rest, length), known.value.typ.schema);
    && (r.Loops? ==> inner) && (inner ==> !r.Values? && !Complete(rest, length, known))
    && (r.Values? ==> Complete(rest, length, known))
    && (NamesApart(schema) && KindsKept(values, schema) ==>
        && (inner ==> r.Loops?)
        && (Complete(rest, length, known) ==> r.Values? && KindsKept(r.values, schema)))
  }

  lemma KindsStored(schema: Schema, id: nat, values: map<string, Parsed>, item: Parsed)
    requires NamesApart(schema) && KindsKept(values, schema) && Lookup(schema, id).Some?
    requires item.ParsedList? == Lookup(schema, id).value.typ.ListOf?
    ensures KindsKept(values[Lookup(schema, id).value.name := item], schema)
  {
    LookupKind(schema, id);
    var k := Lookup(schema, id).value;
    var after := values[k.name := item];
    forall name, list | name in after && NameKind(schema, name, list) && HasName(schema, name)
      ensures after[name].ParsedList? == list
    {
      if name == k.name { SameKind(schema, name, list, k.typ.ListOf?); }
    }
  }

  lemma LeafAsWalked(rest: Bytes, length: nat, id: nat, schema: Schema, values: map<string, Parsed>)
    requires var known := Lookup(schema, id); known.Some? && !known.value.typ.Nested?
    ensures StoredAsWalked(rest, length, Lookup(schema, id), schema, values)
  {
    hide DecodeUint, DecodeZigzag, NamesApart, NameKind, HasName, KindsKept, Lookup, Whole, Endless;
    var k := Lookup(schema, id).value;
    var item := DecodeLeaf(k.typ.leaf, rest, length);
    var r := StoreField(rest, length, Some(k), values);
    assert item.Some? <==> Complete(rest, length, Some(k));
    if NamesApart(schema) && KindsKept(values, schema) && item.Some? {
      ListStays(schema, id, values);
      assert r.Values?;
      KindsStored(schema, id, values, r.values[k.name]);
    }
  }

  lemma ListStays(schema: Schema, id: nat, values: map<string, Parsed>)
    requires NamesApart(schema) && KindsKept(values, schema) && Lookup(schema, id).Some?
    ensures var k := Lookup(schema, id).value; k.typ.ListOf? && k.name in values ==> values[k.name].ParsedList?
  {
    LookupKind(schema, id);
  }

  lemma NestedAsWalked(rest: Bytes, length: nat, id: nat, schema: Schema, values: map<string, Parsed>)
    requires var known := Lookup(schema, id); known.Some? && known.value.typ.Nested?
    requires AsWalked(Upto(rest, length), Lookup(schema, id).value.typ.schema, map[])
    ensures StoredAsWalked(rest, length, Lookup(schema, id), schema, values)
  {
    hide ParseFrom, NamesApart, NameKind, HasName, KindsKept, Lookup, Whole, Endless;
    var k := Lookup(schema, id).value;
    EmptyKinds(k.typ.schema);
    EndlessNotWhole(Upto(rest, length), k.typ.schema);
    if NamesApart(schema) && KindsKept(values, schema) {
      NestedApart(schema, id);
      var nested := ParseFrom(Upto(rest, length), k.typ.schema, map[]);
      if nested.Values? { KindsStored(schema, id, values, ParsedStruct(nested.values)); }
    }
  }

  lemma EmptyKinds(schema: Schema)
    ensures KindsKept(map[], schema)
  {
  }

  lemma NestedApart(schema: Schema, id: nat)
    requires NamesApart(schema) && Lookup(schema, id).Some? && Lookup(schema, id).value.typ.Nested?
    ensures NamesApart(Lookup(schema, id).value.typ.schema)
  {
    LookupKind(schema, id);
  }

  /** One round of the loop. */
  lemma RoundAsWalked(data: Bytes, schema: Schema, values: map<string, Parsed>)
    requires data != [] && DecodeField(data).Some?
    requires var head := DecodeField(data).value;
             var rest, known := data[head.elength..], Lookup(schema, head.field_id);
             && StoredAsWalked(rest, head.length, known, schema, values)
             && (var r := StoreField(rest, head.length, known, values);
                 r.Values? ==> AsWalked(After(rest, head.length), schema, r.values))
    ensures AsWalked(data, schema, values)
  {
    hide DecodeField, StoreField, NamesApart, KindsKept, Lookup, Complete;
  }

  lemma {:induction false} WalkTells(data: Bytes, schema: Schema, values: map<string, Parsed>)
    ensures AsWalked(data, schema, values)
    decreases |data|
  {
    hide AsWalked, StoredAsWalked;
    if data == [] {
      NothingToWalk(schema, values);
    } else {
      match DecodeField(data)
      case None =>
        if |data| > 1 {
          WalkTells(data[|data| - 1..], schema, values);
        }
        CutHead(data, schema, values);
      case Some(head) =>
        var rest, known := data[head.elength..], Lookup(schema, head.field_id);
        if known.Some? {
          if known.value.typ.Nested? {
            WalkTells(Upto(rest, head.length), known.value.typ.schema, map[]);
            NestedAsWalked(rest, head.length, head.field_id, schema, values);
          } else {
            LeafAsWalked(rest, head.length, head.field_id, schema, values);
          }
        } else {
          UnknownAsWalked(rest, head.length, schema, values);
        }
        var r := StoreField(rest, head.length, known, values);
        if r.Values? { WalkTells(After(rest, head.length), schema, r.values); }
        RoundAsWalked(data, schema, values);
    }
  }

  lemma NothingToWalk(schema: Schema, values: map<string, Parsed>)
    ensures AsWalked([], schema, values)
  {
  }

  lemma UnknownAsWalked(rest: Bytes, length: nat, schema: Schema, values: map<string, Parsed>)
    ensures StoredAsWalked(rest, length, None, schema, values)
  {
  }

  lemma CutHead(data: Bytes, schema: Schema, values: map<string, Parsed>)
    requires data != [] && DecodeField(data).None?
    requires |data| > 1 ==> AsWalked(data[|data| - 1..], schema, values)
    ensures AsWalked(data, schema, values)
  {
    hide DecodeField;
    var b := data[|data| - 1];
    assert data[|data| - 1..] == [b];
    OneByteHead(b);
    LastByteLoops(b, schema, values);
    if |data| == 1 { assert data == [b]; }
  }

  /** Parse does not end, for any data under any schema, if and only if the walk over the heads
      comes to a cut-off head whose data end in another, and no exception comes first; under a
      schema in which a name stands for lists or for no list, only an incomplete field raises, and
      the walk tells all three ends apart. */
  lemma LoopsExactly(data: Bytes, schema: Schema)
    ensures var r := ParseFrom(data, schema, map[]);
            && (r == Loops <==> Endless(data, schema) && r != Raised)
            && (NamesApart(schema) ==>
                  && (r == Loops <==> Endless(data, schema))
                  && (r.Values? <==> Whole(data, schema)))
  {
    WalkTells(data, schema, map[]);
    EmptyKinds(schema);
  }

  // ------------------------------------------------------ schemas without nested types

  predicate Flat(schema: Schema) { schema.Entry? ==> !schema.typ.Nested? && Flat(schema.more) }

  /** What is left when every field with a whole head is passed over, by its length alone. */
  function CutOff(data: Bytes): Bytes
    decreases |data|
  {
    if data == [] then []
    else
      match DecodeField(data)
      case None => data
      case Some(head) => CutOff(After(data[head.elength..], head.length))
  }

  lemma {:induction false} FlatLookup(schema: Schema, id: nat)
    requires Flat(schema)
    ensures Lookup(schema, id).Some? ==> !Lookup(schema, id).value.typ.Nested?
  {
    if schema.Entry? { FlatLookup(schema.more, id); }
  }

  lemma {:induction false} FlatEndless(data: Bytes, schema: Schema)
    requires Flat(schema)
    ensures Endless(data, schema) <==> CutOff(data) != [] && Announces(data[|data| - 1])
    decreases |data|
  {
    hide DecodeField, Lookup, Whole, Announces;
    if data != [] && DecodeField(data).Some? {
      var head := DecodeField(data).value;
      var rest, later := data[head.elength..], After(data[head.elength..], head.length);
      FlatLookup(schema, head.field_id);
      FlatEndless(later, schema);
      assert later != [] ==> Complete(rest, head.length, Lookup(schema, head.field_id));
      assert later != [] ==> later[|later| - 1] == data[|data| - 1];
      assert !Endless([], schema) && CutOff([]) == [];
    }
  }

  /** Without nested types: parse goes round for ever if and only if the fields end in a cut-off
      head and the last byte of the data is one too. */
  lemma FlatLoops(data: Bytes, schema: Schema)
    requires Flat(schema)
    ensures var r := ParseFrom(data, schema, map[]);
            && (r == Loops <==> CutOff(data) != [] && Announces(data[|data| - 1]) && r != Raised)
            && (NamesApart(schema) ==> (r == Loops <==> CutOff(data) != [] && Announces(data[|data| - 1])))
  {
    LoopsExactly(data, schema);
    FlatEndless(data, schema);
  }
}
