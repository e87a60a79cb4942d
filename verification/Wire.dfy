/** The Protocol Buffers wire format: base-128 varints, length-delimited fields, and fields to
    be skipped. A reader is the rest of the bytes. */
module Wire {
  import opened Wrappers

  type Byte = b: int | 0 <= b < 256

  type Uint32 = n: int | 0 <= n < 0x1_0000_0000

  const LIMIT := 0x1_0000_0000

  const MAX_FIELDS := 0x2000_0000

  datatype WireError = OutOfRange | TooLong | BadWireType

  type Read<T> = Result<(T, seq<Byte>), WireError>

  // Varints.

  function Varint(n: nat): (r: seq<Byte>)
    ensures r != []
  {
    if n < 128 then [n] else [n % 128 + 128] + Varint(n / 128)
  }

  /** At most ten bytes. */
  function ReadVarint(s: seq<Byte>, read: nat): (r: Read<nat>)
    ensures r.Success? ==> |r.value.1| < |s|
  {
    if s == [] then Failure(OutOfRange)
    else if s[0] < 128 then Success((s[0], s[1..]))
    else if read >= 9 then Failure(TooLong)
    else
      var high :- ReadVarint(s[1..], read + 1);
      Success((s[0] - 128 + 128 * high.0, high.1))
  }

  /** Reader.uint32: what does not fit into 32 bits is cut off. */
  function ReadUint32(s: seq<Byte>): (r: Read<Uint32>)
    ensures r.Success? ==> |r.value.1| < |s|
  {
    var v :- ReadVarint(s, 0);
    Success((v.0 % LIMIT, v.1))
  }

  function Power128(k: nat): (r: nat)
    ensures r >= 1
  {
    if k == 0 then 1 else 128 * Power128(k - 1)
  }

  /** A varint of at most `10 - read` digits is read back, with the bytes behind it left over. */
  lemma {:induction false} ReadsVarint(n: nat, read: nat, rest: seq<Byte>)
    requires read <= 9 && n < Power128(10 - read)
    ensures ReadVarint(Varint(n) + rest, read) == Success((n, rest))
    decreases n
  {
    var s := Varint(n) + rest;
    if n < 128 {
      assert s[1..] == rest;
    } else {
      assert read < 9 by {
        assert Power128(1) == 128 * Power128(0);
      }
      assert s[1..] == Varint(n / 128) + rest;
      assert n / 128 < Power128(9 - read);
      ReadsVarint(n / 128, read + 1, rest);
    }
  }

  lemma TenDigits()
    ensures Power128(10) >= LIMIT
  {
    assert Power128(2) == 128 * Power128(1) && Power128(1) == 128 * Power128(0);
    assert Power128(3) == 128 * Power128(2);
    assert Power128(4) == 128 * Power128(3);
    assert Power128(5) == 128 * Power128(4);
    assert Power128(10) >= Power128(9) >= Power128(8) >= Power128(7) >= Power128(6) >= Power128(5);
  }

  lemma ReadsUint32(n: Uint32, rest: seq<Byte>)
    ensures ReadUint32(Varint(n) + rest) == Success((n, rest))
  {
    TenDigits();
    hide Varint, ReadVarint, Power128;
    ReadsVarint(n, 0, rest);
  }

  // Length-delimited content.

  function Delimited(content: seq<Byte>): seq<Byte> {
    Varint(|content|) + content
  }

  function ReadN(s: seq<Byte>, n: nat): (r: Read<seq<Byte>>)
    ensures r.Success? ==> |r.value.1| <= |s|
  {
    if n <= |s| then Success((s[..n], s[n..])) else Failure(OutOfRange)
  }

  /** Reader.bytes */
  function ReadBytes(s: seq<Byte>): (r: Read<seq<Byte>>)
    ensures r.Success? ==> |r.value.1| < |s|
  {
    var length :- ReadUint32(s);
    ReadN(length.1, length.0)
  }

  lemma ReadsDelimited(content: seq<Byte>, rest: seq<Byte>)
    requires |content| < LIMIT
    ensures ReadBytes(Delimited(content) + rest) == Success((content, rest))
  {
    assert Delimited(content) + rest == Varint(|content|) + (content + rest);
    ReadsUint32(|content|, content + rest);
    assert (content + rest)[..|content|] == content && (content + rest)[|content|..] == rest;
  }

  // Unknown fields.

  /** Reader.skipType */
  function Skip(s: seq<Byte>, wireType: nat): (r: Result<seq<Byte>, WireError>)
    ensures r.Success? ==> |r.value| <= |s|
    decreases |s|, 1
  {
    match wireType
    case 0 => var v :- ReadVarint(s, 0); Success(v.1)
    case 1 => var v :- ReadN(s, 8); Success(v.1)
    case 2 => var v :- ReadBytes(s); Success(v.1)
    case 3 => SkipGroup(s)
    case 5 => var v :- ReadN(s, 4); Success(v.1)
    case _ => Failure(BadWireType)
  }

  /** A group runs to its end tag, whatever its number. */
  function SkipGroup(s: seq<Byte>): (r: Result<seq<Byte>, WireError>)
    ensures r.Success? ==> |r.value| <= |s|
    decreases |s|, 0
  {
    var tag :- ReadUint32(s);
    if tag.0 % 8 == 4 then Success(tag.1)
    else
      var rest :- Skip(tag.1, tag.0 % 8);
      SkipGroup(rest)
  }

  /** The content of a field that no version of the message defines. */
  datatype Foreign =
    | Number(n: Uint32)
    | Eight(bytes: seq<Byte>)
    | Blob(content: seq<Byte>)
    | Nested(group: Group)
    | Four(bytes: seq<Byte>)

  /** The fields of a group, up to its end tag. */
  datatype Group = End(number: nat) | Field(number: nat, content: Foreign, rest: Group)

  predicate IsForeign(f: Foreign) {
    match f
    case Number(_) => true
    case Eight(bytes) => |bytes| == 8
    case Blob(content) => |content| < LIMIT
    case Nested(group) => IsGroup(group)
    case Four(bytes) => |bytes| == 4
  }

  predicate IsGroup(g: Group) {
    g.number < MAX_FIELDS && (g.Field? ==> IsForeign(g.content) && IsGroup(g.rest))
  }

  function WireTypeOf(f: Foreign): nat {
    match f case Number(_) => 0 case Eight(_) => 1 case Blob(_) => 2 case Nested(_) => 3 case Four(_) => 5
  }

  function Tag(number: nat, wireType: nat): nat {
    number * 8 + wireType
  }

  function EncodeForeign(f: Foreign): seq<Byte> {
    match f
    case Number(n) => Varint(n)
    case Eight(bytes) => bytes
    case Blob(content) => Delimited(content)
    case Nested(group) => EncodeGroup(group)
    case Four(bytes) => bytes
  }

  function EncodeGroup(g: Group): seq<Byte> {
    match g
    case End(number) => Varint(Tag(number, 4))
    case Field(number, content, rest) =>
      Varint(Tag(number, WireTypeOf(content))) + EncodeForeign(content) + EncodeGroup(rest)
  }

  lemma ReadsTag(number: nat, wireType: nat, rest: seq<Byte>)
    requires number < MAX_FIELDS && wireType < 8
    ensures ReadUint32(Varint(Tag(number, wireType)) + rest) == Success((Tag(number, wireType), rest))
    ensures Tag(number, wireType) / 8 == number && Tag(number, wireType) % 8 == wireType
  {
    ReadsUint32(Tag(number, wireType), rest);
  }

  lemma SkipsNumber(n: Uint32, rest: seq<Byte>)
    ensures Skip(Varint(n) + rest, 0) == Success(rest)
  {
    ReadsUint32(n, rest);
    assert ReadVarint(Varint(n) + rest, 0).Success?;
    assert ReadUint32(Varint(n) + rest).value.1 == ReadVarint(Varint(n) + rest, 0).value.1;
  }

  /** An unknown field is skipped exactly, whatever its wire type, and groups within groups. */
  lemma {:induction false} SkipsForeign(f: Foreign, rest: seq<Byte>)
    requires IsForeign(f)
    ensures Skip(EncodeForeign(f) + rest, WireTypeOf(f)) == Success(rest)
    decreases f
  {
    match f
    case Number(n) => SkipsNumber(n, rest);
    case Eight(bytes) => assert (bytes + rest)[8..] == rest;
    case Blob(content) => ReadsDelimited(content, rest);
    case Nested(group) => SkipsToEnd(group, rest);
    case Four(bytes) => assert (bytes + rest)[4..] == rest;
  }

  lemma {:induction false} SkipsToEnd(g: Group, rest: seq<Byte>)
    requires IsGroup(g)
    ensures SkipGroup(EncodeGroup(g) + rest) == Success(rest)
    decreases g
  {
    hide Varint, Tag, ReadUint32, Skip, EncodeForeign;
    match g
    case End(number) => ReadsTag(number, 4, rest);
    case Field(number, content, more) =>
      var behind := EncodeGroup(more) + rest;
      ReadsTag(number, WireTypeOf(content), EncodeForeign(content) + behind);
      assert EncodeGroup(g) + rest == Varint(Tag(number, WireTypeOf(content))) + (EncodeForeign(content) + behind);
      SkipsForeign(content, behind);
      SkipsToEnd(more, rest);
  }

  // Messages as field numbers and values.

  datatype Kind = Uint32Field | BytesField

  datatype Value = U(n: Uint32) | B(content: seq<Byte>)

  type Schema = map<nat, Kind>

  type Fields = map<nat, Value>

  datatype Item = Known(number: nat, value: Value) | Unknown(number: nat, foreign: Foreign)

  function EncodeItem(i: Item): (r: seq<Byte>)
    ensures r != []
  {
    match i
    case Known(number, U(n)) => Varint(Tag(number, 0)) + Varint(n)
    case Known(number, B(content)) => Varint(Tag(number, 2)) + Delimited(content)
    case Unknown(number, f) => Varint(Tag(number, WireTypeOf(f))) + EncodeForeign(f)
  }

  function EncodeAll(items: seq<Item>): seq<Byte> {
    if items == [] then [] else EncodeItem(items[0]) + EncodeAll(items[1..])
  }

  /** One turn of the loop in `decode`. The wire type of a known field is not looked at. */
  function DecodeItem(schema: Schema, s: seq<Byte>, fields: Fields): (r: Result<(Fields, seq<Byte>), WireError>)
    ensures r.Success? ==> |r.value.1| < |s|
  {
    var tag :- ReadUint32(s);
    var number := tag.0 / 8;
    if number in schema then
      match schema[number]
      case Uint32Field => var v :- ReadUint32(tag.1); Success((fields[number := U(v.0)], v.1))
      case BytesField => var v :- ReadBytes(tag.1); Success((fields[number := B(v.0)], v.1))
    else
      var rest :- Skip(tag.1, tag.0 % 8);
      Success((fields, rest))
  }

  /** `decode` */
  function Decode(schema: Schema, s: seq<Byte>, fields: Fields): Result<Fields, WireError>
    decreases |s|
  {
    if s == [] then Success(fields)
    else
      var step :- DecodeItem(schema, s, fields);
      Decode(schema, step.1, step.0)
  }

  predicate FitsSchema(schema: Schema, i: Item) {
    && i.number < MAX_FIELDS
    && match i
       case Known(number, U(_)) => number in schema && schema[number] == Uint32Field
       case Known(number, B(content)) => number in schema && schema[number] == BytesField && |content| < LIMIT
       case Unknown(number, f) => number !in schema && IsForeign(f)
  }

  function Applied(fields: Fields, i: Item): Fields {
    match i
    case Known(number, v) => fields[number := v]
    case Unknown(_, _) => fields
  }

  /** The last value of a field wins. */
  function Collected(fields: Fields, items: seq<Item>): Fields
    decreases |items|
  {
    if items == [] then fields else Collected(Applied(fields, items[0]), items[1..])
  }

  lemma DecodesItem(schema: Schema, i: Item, rest: seq<Byte>, fields: Fields)
    requires FitsSchema(schema, i)
    ensures DecodeItem(schema, EncodeItem(i) + rest, fields) == Success((Applied(fields, i), rest))
  {
    hide Varint, ReadVarint, ReadUint32, ReadBytes, Delimited, Skip, EncodeForeign, Tag;
    var s := EncodeItem(i) + rest;
    match i
    case Known(number, U(n)) =>
      assert s == Varint(Tag(number, 0)) + (Varint(n) + rest);
      ReadsTag(number, 0, Varint(n) + rest);
      ReadsUint32(n, rest);
    case Known(number, B(content)) =>
      assert s == Varint(Tag(number, 2)) + (Delimited(content) + rest);
      ReadsTag(number, 2, Delimited(content) + rest);
      ReadsDelimited(content, rest);
    case Unknown(number, f) =>
      assert s == Varint(Tag(number, WireTypeOf(f))) + (EncodeForeign(f) + rest);
      ReadsTag(number, WireTypeOf(f), EncodeForeign(f) + rest);
      SkipsForeign(f, rest);
  }

  /** Whatever fields are written in whatever order, with unknown fields anywhere in between, a
      reader finds exactly the known ones. */
  lemma {:induction false} DecodesAll(schema: Schema, items: seq<Item>, fields: Fields)
    requires forall i :: i in items ==> FitsSchema(schema, i)
    ensures Decode(schema, EncodeAll(items), fields) == Success(Collected(fields, items))
    decreases |items|
  {
    if items != [] {
      DecodesItem(schema, items[0], EncodeAll(items[1..]), fields);
      DecodesAll(schema, items[1..], Applied(fields, items[0]));
      hide FitsSchema, DecodeItem, EncodeItem;
    }
  }

  // The order of the fields does not matter.

  /** Each field of `m` is there once, and no other known field. */
  ghost predicate Presents(items: seq<Item>, m: Fields) {
    && (forall i :: i in items && i.Known? ==> i.number in m && m[i.number] == i.value)
    && (forall k :: k in m ==> Known(k, m[k]) in items)
  }

  lemma {:induction false} CollectedPresents(fields: Fields, items: seq<Item>, m: Fields)
    requires forall i :: i in items && i.Known? ==> i.number in m && m[i.number] == i.value
    requires forall k :: k in m ==> (k in fields && fields[k] == m[k]) || Known(k, m[k]) in items
    requires forall k :: k in fields ==> k in m
    ensures Collected(fields, items) == m
    decreases |items|
  {
    if items == [] {
      assert fields == m;
    } else {
      forall k | k in m
        ensures (k in Applied(fields, items[0]) && Applied(fields, items[0])[k] == m[k]) || Known(k, m[k]) in items[1..]
      {
        assert Known(k, m[k]) in items ==> Known(k, m[k]) == items[0] || Known(k, m[k]) in items[1..];
      }
      CollectedPresents(Applied(fields, items[0]), items[1..], m);
    }
  }

  /** Any permutation of the fields of a message, with unknown fields interleaved, decodes to
      the message. */
  lemma AnyOrderDecodes(schema: Schema, items: seq<Item>, m: Fields)
    requires (forall i :: i in items ==> FitsSchema(schema, i)) && Presents(items, m)
    ensures Decode(schema, EncodeAll(items), map[]) == Success(m)
  {
    DecodesAll(schema, items, map[]);
    hide FitsSchema, Decode;
    CollectedPresents(map[], items, m);
  }

  // Messages that are cut short.

  lemma {:induction false} CutVarint(n: nat, read: nat, k: nat)
    requires read <= 9 && n < Power128(10 - read) && k < |Varint(n)|
    ensures ReadVarint(Varint(n)[..k], read) == Failure(OutOfRange)
    decreases n
  {
    if k > 0 {
      assert read < 9 by {
        assert Power128(1) == 128 * Power128(0);
      }
      assert Varint(n)[..k][1..] == Varint(n / 128)[..k - 1];
      assert n / 128 < Power128(9 - read);
      CutVarint(n / 128, read + 1, k - 1);
    }
  }

  lemma CutUint32(n: Uint32, k: nat)
    requires k < |Varint(n)|
    ensures ReadUint32(Varint(n)[..k]) == Failure(OutOfRange) && ReadVarint(Varint(n)[..k], 0) == Failure(OutOfRange)
  {
    TenDigits();
    hide Varint, ReadVarint, Power128;
    CutVarint(n, 0, k);
  }

  lemma CutDelimited(content: seq<Byte>, k: nat)
    requires |content| < LIMIT && k < |Delimited(content)|
    ensures ReadBytes(Delimited(content)[..k]) == Failure(OutOfRange)
  {
    var digits := Varint(|content|);
    hide Varint, ReadVarint;
    if k < |digits| {
      CutUint32(|content|, k);
      assert Delimited(content)[..k] == digits[..k];
    } else {
      assert Delimited(content)[..k] == digits + content[..k - |digits|];
      ReadsUint32(|content|, content[..k - |digits|]);
    }
  }

  lemma CutValue(tag: nat, content: seq<Byte>, k: nat)
    requires tag < LIMIT && k < |Varint(tag) + content|
    ensures var s := (Varint(tag) + content)[..k];
            if k < |Varint(tag)| then ReadUint32(s) == Failure(OutOfRange)
            else ReadUint32(s) == Success((tag, content[..k - |Varint(tag)|]))
  {
    hide Varint, ReadUint32, ReadVarint;
    var s := (Varint(tag) + content)[..k];
    if k < |Varint(tag)| {
      assert s == Varint(tag)[..k];
      CutUint32(tag, k);
    } else {
      assert s == Varint(tag) + content[..k - |Varint(tag)|];
      ReadsUint32(tag, content[..k - |Varint(tag)|]);
    }
  }

  lemma {:induction false} CutForeign(f: Foreign, k: nat)
    requires IsForeign(f) && k < |EncodeForeign(f)|
    ensures Skip(EncodeForeign(f)[..k], WireTypeOf(f)) == Failure(OutOfRange)
    decreases f
  {
    match f
    case Number(n) => CutUint32(n, k);
    case Eight(_) =>
    case Blob(content) => CutDelimited(content, k);
    case Nested(group) => CutGroup(group, k);
    case Four(_) =>
  }

  /** One field of a group. */
  lemma SkipsOne(s: seq<Byte>)
    requires ReadUint32(s).Success? && ReadUint32(s).value.0 % 8 != 4
    ensures var tag := ReadUint32(s).value;
            SkipGroup(s) == match Skip(tag.1, tag.0 % 8)
                            case Failure(e) => Failure(e)
                            case Success(rest) => SkipGroup(rest)
  {
    hide ReadUint32, Skip;
  }

  lemma SkipsNone(s: seq<Byte>)
    requires ReadUint32(s).Failure?
    ensures SkipGroup(s) == Failure(ReadUint32(s).error)
  {
    hide ReadUint32;
  }

  lemma CutParts(tag: seq<Byte>, body: seq<Byte>, behind: seq<Byte>, k: nat)
    requires k < |tag + body + behind|
    ensures k < |tag| ==> (tag + body + behind)[..k] == tag[..k]
    ensures k >= |tag| && k < |tag| + |body| ==> (tag + body + behind)[..k] == tag + body[..k - |tag|]
    ensures k >= |tag| + |body| ==>
              (tag + body + behind)[..k] == tag + (body + behind[..k - |tag| - |body|])
  {
  }

  lemma {:induction false} CutGroup(g: Group, k: nat)
    requires IsGroup(g) && k < |EncodeGroup(g)|
    ensures SkipGroup(EncodeGroup(g)[..k]) == Failure(OutOfRange)
    decreases g, 1
  {
    match g
    case End(number) => CutUint32(Tag(number, 4), k);
    case Field(number, content, more) =>
      CutField(g, number, WireTypeOf(content), content, more, k);
  }

  lemma {:induction false} CutField(g: Group, number: nat, wireType: nat, content: Foreign, more: Group, k: nat)
    requires g == Field(number, content, more)
    requires number < MAX_FIELDS && IsForeign(content) && IsGroup(more) && wireType == WireTypeOf(content)
    requires wireType < 8 && wireType != 4
    requires k < |Varint(Tag(number, wireType)) + EncodeForeign(content) + EncodeGroup(more)|
    ensures SkipGroup((Varint(Tag(number, wireType)) + EncodeForeign(content) + EncodeGroup(more))[..k])
            == Failure(OutOfRange)
    decreases g, 0
  {
    hide *;
    var tag, body, behind := Varint(Tag(number, wireType)), EncodeForeign(content), EncodeGroup(more);
    var s := (tag + body + behind)[..k];
    CutParts(tag, body, behind, k);
    if k < |tag| {
      ReadsTag(number, wireType, []);
      CutTag(number, wireType, k);
      SkipsNone(s);
    } else if k < |tag| + |body| {
      ReadsTag(number, wireType, body[..k - |tag|]);
      SkipsOne(s);
      CutForeign(content, k - |tag|);
    } else {
      var left := behind[..k - |tag| - |body|];
      ReadsTag(number, wireType, body + left);
      SkipsOne(s);
      SkipsForeign(content, left);
      CutGroup(more, k - |tag| - |body|);
    }
  }

  lemma CutTag(number: nat, wireType: nat, k: nat)
    requires number < MAX_FIELDS && wireType < 8 && k < |Varint(Tag(number, wireType))|
    ensures ReadUint32(Varint(Tag(number, wireType))[..k]) == Failure(OutOfRange)
  {
    CutUint32(Tag(number, wireType), k);
    hide Varint, ReadUint32, ReadVarint;
  }

  lemma CutItem(schema: Schema, i: Item, k: nat, fields: Fields)
    requires FitsSchema(schema, i) && k < |EncodeItem(i)|
    ensures DecodeItem(schema, EncodeItem(i)[..k], fields) == Failure(OutOfRange)
  {
    hide Varint, ReadVarint, ReadUint32, ReadBytes, Delimited, Skip, EncodeForeign;
    match i
    case Known(number, U(n)) =>
      CutValue(Tag(number, 0), Varint(n), k);
      if k >= |Varint(Tag(number, 0))| {
        CutUint32(n, k - |Varint(Tag(number, 0))|);
      }
    case Known(number, B(content)) =>
      CutValue(Tag(number, 2), Delimited(content), k);
      if k >= |Varint(Tag(number, 2))| {
        CutDelimited(content, k - |Varint(Tag(number, 2))|);
      }
    case Unknown(number, f) =>
      CutValue(Tag(number, WireTypeOf(f)), EncodeForeign(f), k);
      if k >= |Varint(Tag(number, WireTypeOf(f)))| {
        CutForeign(f, k - |Varint(Tag(number, WireTypeOf(f)))|);
      }
  }

  /** The first `n` bytes are the first `j` fields. */
  ghost predicate EndsAfter(items: seq<Item>, n: nat, j: int) {
    0 <= j <= |items| && |EncodeAll(items[..j])| == n
  }

  /** A message that was cut short is refused, unless the cut is between two fields; then it is read as
      the message of the fields before the cut. */
  lemma {:induction false} CutExactlyWhen(schema: Schema, items: seq<Item>, n: nat, fields: Fields)
    requires (forall i :: i in items ==> FitsSchema(schema, i)) && n <= |EncodeAll(items)|
    ensures var r := Decode(schema, EncodeAll(items)[..n], fields);
            && (forall j :: EndsAfter(items, n, j) ==> r == Success(Collected(fields, items[..j])))
            && ((forall j :: !EndsAfter(items, n, j)) ==> r == Failure(OutOfRange))
    decreases |items|
  {
    hide FitsSchema, DecodeItem, EncodeItem, Applied;
    if n == 0 {
      OnlyNoneIsEmpty(items);
      assert EndsAfter(items, 0, 0);
    } else {
      hide EndsAfter;
      var first, rest := EncodeItem(items[0]), items[1..];
      assert EncodeAll(items) == first + EncodeAll(rest);
      if n < |first| {
        assert EncodeAll(items)[..n] == first[..n];
        CutItem(schema, items[0], n, fields);
        NoEndInFirst(items, n);
      } else {
        var m := n - |first|;
        assert EncodeAll(items)[..n] == first + EncodeAll(rest)[..m];
        DecodesItem(schema, items[0], EncodeAll(rest)[..m], fields);
        CutExactlyWhen(schema, rest, m, Applied(fields, items[0]));
        forall j | EndsAfter(items, n, j)
          ensures EndsAfter(rest, m, j - 1)
          ensures 0 < j <= |items|
          ensures Collected(fields, items[..j]) == Collected(Applied(fields, items[0]), rest[..j - 1])
        {
          EndsInRest(items, n, j, fields);
        }
        if forall j :: !EndsAfter(items, n, j) {
          forall j ensures !EndsAfter(rest, m, j) {
            EndsInRest(items, n, j + 1, fields);
          }
        }
      }
    }
  }

  lemma OnlyNoneIsEmpty(items: seq<Item>)
    ensures forall j :: EndsAfter(items, 0, j) ==> j == 0
  {
    forall j | 0 < j <= |items| ensures EncodeAll(items[..j]) != [] {
      assert items[..j] != [];
    }
  }

  lemma NoEndInFirst(items: seq<Item>, n: nat)
    requires items != [] && 0 < n < |EncodeItem(items[0])|
    ensures forall j :: !EndsAfter(items, n, j)
  {
    hide EncodeItem;
    forall j | 0 <= j <= |items| ensures !EndsAfter(items, n, j) {
      if j > 0 {
        assert items[..j][0] == items[0];
      }
    }
  }

  lemma EndsInRest(items: seq<Item>, n: nat, j: int, fields: Fields)
    requires items != [] && n >= |EncodeItem(items[0])|
    ensures EndsAfter(items, n, j) <==> EndsAfter(items[1..], n - |EncodeItem(items[0])|, j - 1)
    ensures EndsAfter(items, n, j) ==>
              0 < j && Collected(fields, items[..j]) == Collected(Applied(fields, items[0]), items[1..][..j - 1])
  {
    assert EncodeItem(items[0]) != [];
    hide EncodeItem, Applied;
    if 0 < j <= |items| {
      assert items[..j][0] == items[0] && items[..j][1..] == items[1..][..j - 1];
    }
  }

  // What a reader makes of numbers that a writer of this protocol does not write.

  /** The low 32 bits of a number of up to ten digits are read. */
  lemma ReadsLowBits(n: nat, rest: seq<Byte>)
    requires n < Power128(10)
    ensures ReadUint32(Varint(n) + rest) == Success((n % 0x1_0000_0000, rest))
  {
    hide Varint, ReadVarint, Power128;
    ReadsVarint(n, 0, rest);
  }

  /** An unknown field of a wire type that there is not is refused, whatever follows. */
  lemma BadWireTypeRefused(schema: Schema, number: nat, wireType: nat, rest: seq<Byte>, fields: Fields)
    requires number < MAX_FIELDS && number !in schema && wireType in {4, 6, 7}
    ensures DecodeItem(schema, Varint(Tag(number, wireType)) + rest, fields) == Failure(BadWireType)
  {
    ReadsTag(number, wireType, rest);
    hide Varint, ReadUint32, Tag;
  }

  lemma {:induction false} LongVarintRefused(s: seq<Byte>, read: nat)
    requires read <= 9 && |s| >= 10 - read && forall i :: 0 <= i < 10 - read ==> s[i] >= 128
    ensures ReadVarint(s, read) == Failure(TooLong)
  {
    if read < 9 {
      LongVarintRefused(s[1..], read + 1);
    }
  }
}
