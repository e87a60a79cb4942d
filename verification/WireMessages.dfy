/** Writing and reading messages byte by byte: `encode` appends to a writer, `decode` loops over a
    reader. Both are proved against the functions of Wire.dfy. */
module WireMessages {
  import opened Wrappers
  import opened Wire

  type Bytes = seq<Byte>

  // Writing and reading step by step.

  class Writer {
    var buf: Bytes

    constructor ()
      ensures buf == []
    {
      buf := [];
    }

    method PutUint32(n: Uint32)
      modifies this
      ensures buf == old(buf) + Varint(n)
    {
      var rest: nat := n;
      while rest > 127
        invariant buf + Varint(rest) == old(buf) + Varint(n)
      {
        buf := buf + [rest % 128 + 128];
        rest := rest / 128;
      }
      buf := buf + [rest];
    }

    method PutBytes(content: Bytes)
      requires |content| < LIMIT
      modifies this
      ensures buf == old(buf) + Delimited(content)
    {
      PutUint32(|content|);
      buf := buf + content;
    }

    method PutItem(i: Item)
      requires CanPut(i)
      modifies this
      ensures buf == old(buf) + EncodeItem(i)
    {
      match i.value
      case U(n) =>
        PutUint32(Tag(i.number, 0));
        PutUint32(n);
      case B(content) =>
        PutUint32(Tag(i.number, 2));
        PutBytes(content);
    }
  }

  predicate CanPut(i: Item) {
    i.Known? && i.number < MAX_FIELDS && (i.value.B? ==> |i.value.content| < LIMIT)
  }

  lemma EncodeNext(buf: Bytes, items: seq<Item>, i: nat)
    requires i < |items|
    ensures buf + EncodeAll(items[i..]) == buf + EncodeItem(items[i]) + EncodeAll(items[i + 1..])
  {
    assert items[i..][0] == items[i] && items[i..][1..] == items[i + 1..];
    hide EncodeItem;
  }

  /** `encode`: the fields that are there, in the order of the numbers. */
  method Encode(items: seq<Item>) returns (buf: Bytes)
    requires forall i :: 0 <= i < |items| ==> CanPut(items[i])
    ensures buf == EncodeAll(items)
  {
    var w := new Writer();
    assert items[0..] == items;
    hide EncodeItem;
    for i := 0 to |items|
      invariant w.buf + EncodeAll(items[i..]) == EncodeAll(items)
    {
      EncodeNext(w.buf, items, i);
      w.PutItem(items[i]);
    }
    buf := w.buf;
    assert items[|items|..] == [];
  }

  class Reader {
    const buf: Bytes
    var pos: nat

    ghost predicate Valid()
      reads this
    {
      pos <= |buf|
    }

    function Rest(): Bytes
      reads this
      requires Valid()
    {
      buf[pos..]
    }

    constructor (buf: Bytes)
      ensures Valid() && this.buf == buf && pos == 0
    {
      this.buf, pos := buf, 0;
    }

    method GetVarint() returns (r: Result<nat, WireError>)
      requires Valid()
      modifies this
      ensures Valid()
      ensures match ReadVarint(old(Rest()), 0)
              case Failure(e) => r == Failure(e)
              case Success(v) => r == Success(v.0) && Rest() == v.1
    {
      var value, factor, read := 0, 1, 0;
      ghost var start := Rest();
      while true
        invariant Valid() && 0 <= read <= 9 && factor >= 1
        invariant match ReadVarint(Rest(), read)
                  case Failure(e) => ReadVarint(start, 0) == Failure(e)
                  case Success(v) => ReadVarint(start, 0) == Success((value + factor * v.0, v.1))
        decreases 9 - read
      {
        if pos == |buf| {
          return Failure(OutOfRange);
        }
        var b := buf[pos];
        assert Rest()[1..] == buf[pos + 1..];
        if b < 128 {
          pos := pos + 1;
          return Success(value + factor * b);
        }
        if read == 9 {
          return Failure(TooLong);
        }
        ghost var high := ReadVarint(buf[pos + 1..], read + 1);
        if high.Success? {
          Distribute(value, factor, b - 128, high.value.0);
        }
        pos := pos + 1;
        value, factor, read := value + factor * (b - 128), factor * 128, read + 1;
      }
    }

    method GetUint32() returns (r: Result<Uint32, WireError>)
      requires Valid()
      modifies this
      ensures Valid()
      ensures match ReadUint32(old(Rest()))
              case Failure(e) => r == Failure(e)
              case Success(v) => r == Success(v.0) && Rest() == v.1
    {
      var v := GetVarint();
      r := if v.Success? then Success(v.value % LIMIT) else Failure(v.error);
    }

    method GetN(n: nat) returns (r: Result<Bytes, WireError>)
      requires Valid()
      modifies this
      ensures Valid()
      ensures match ReadN(old(Rest()), n)
              case Failure(e) => r == Failure(e)
              case Success(v) => r == Success(v.0) && Rest() == v.1
    {
      if n > |buf| - pos {
        return Failure(OutOfRange);
      }
      assert Rest()[..n] == buf[pos..pos + n] && Rest()[n..] == buf[pos + n..];
      r := Success(buf[pos..pos + n]);
      pos := pos + n;
    }

    method GetBytes() returns (r: Result<Bytes, WireError>)
      requires Valid()
      modifies this
      ensures Valid()
      ensures match ReadBytes(old(Rest()))
              case Failure(e) => r == Failure(e)
              case Success(v) => r == Success(v.0) && Rest() == v.1
    {
      var length := GetUint32();
      if length.Failure? {
        return Failure(length.error);
      }
      r := GetN(length.value);
    }

    method SkipType(wireType: nat) returns (r: Result<(), WireError>)
      requires Valid()
      modifies this
      ensures Valid()
      ensures match Skip(old(Rest()), wireType)
              case Failure(e) => r == Failure(e)
              case Success(rest) => r == Success(()) && Rest() == rest
      decreases |Rest()|, 1
    {
      match wireType
      case 0 =>
        var v := GetVarint();
        r := if v.Success? then Success(()) else Failure(v.error);
      case 1 =>
        var v := GetN(8);
        r := if v.Success? then Success(()) else Failure(v.error);
      case 2 =>
        var v := GetBytes();
        r := if v.Success? then Success(()) else Failure(v.error);
      case 3 =>
        r := SkipToEndGroup();
      case 5 =>
        var v := GetN(4);
        r := if v.Success? then Success(()) else Failure(v.error);
      case _ =>
        r := Failure(BadWireType);
    }

    method SkipToEndGroup() returns (r: Result<(), WireError>)
      requires Valid()
      modifies this
      ensures Valid()
      ensures match SkipGroup(old(Rest()))
              case Failure(e) => r == Failure(e)
              case Success(rest) => r == Success(()) && Rest() == rest
      decreases |Rest()|, 0
    {
      var tag := GetUint32();
      if tag.Failure? {
        return Failure(tag.error);
      }
      if tag.value % 8 == 4 {
        return Success(());
      }
      var skipped := SkipType(tag.value % 8);
      if skipped.Failure? {
        return skipped;
      }
      r := SkipToEndGroup();
    }

    /** One turn of the loop in `decode`. */
    method GetItem(schema: Schema, fields: Fields) returns (r: Result<Fields, WireError>)
      requires Valid()
      modifies this
      ensures Valid()
      ensures match DecodeItem(schema, old(Rest()), fields)
              case Failure(e) => r == Failure(e)
              case Success(v) => r == Success(v.0) && Rest() == v.1
    {
      var tag := GetUint32();
      if tag.Failure? {
        return Failure(tag.error);
      }
      var number := tag.value / 8;
      if number !in schema {
        var skipped := SkipType(tag.value % 8);
        return if skipped.Success? then Success(fields) else Failure(skipped.error);
      }
      match schema[number]
      case Uint32Field =>
        var v := GetUint32();
        r := if v.Success? then Success(fields[number := U(v.value)]) else Failure(v.error);
      case BytesField =>
        var v := GetBytes();
        r := if v.Success? then Success(fields[number := B(v.value)]) else Failure(v.error);
    }
  }

  lemma Distribute(value: int, factor: int, low: int, high: int)
    ensures value + factor * (low + 128 * high) == value + factor * low + factor * 128 * high
  {
    assert factor * (low + 128 * high) == factor * low + factor * (128 * high);
    assert factor * (128 * high) == factor * 128 * high;
  }

  /** `decode` */
  method DecodeFields(schema: Schema, buf: Bytes) returns (r: Result<Fields, WireError>)
    ensures r == Decode(schema, buf, map[])
  {
    var reader := new Reader(buf);
    var fields: Fields := map[];
    assert buf[0..] == buf;
    while reader.pos < |buf|
      invariant fresh(reader) && reader.Valid() && reader.buf == buf
      invariant Decode(schema, reader.Rest(), fields) == Decode(schema, buf, map[])
      decreases |reader.Rest()|
    {
      var next := reader.GetItem(schema, fields);
      if next.Failure? {
        return next;
      }
      fields := next.value;
    }
    r := Success(fields);
  }
}
