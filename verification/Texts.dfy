/** The text forms of numbers and bytes that end up in JSON: decimal property names, and base64 as
    Buffer writes and reads it. */
module Texts {
  import opened Wrappers

  type Bytes = seq<bv8>

  // Property names.

  function Digit(n: nat): (r: char)
    requires n < 10
    ensures '0' <= r <= '9' && r as int - '0' as int == n
  {
    ('0' as int + n) as char
  }

  function Digits(n: nat): (r: string)
    ensures r != [] && IsDigit(r[0])
  {
    if n < 10 then [Digit(n)] else Digits(n / 10) + [Digit(n % 10)]
  }

  /** The name of an integer property. */
  function Decimal(n: int): string {
    if n < 0 then "-" + Digits(-n) else Digits(n)
  }

  predicate IsDigit(c: char) {
    '0' <= c <= '9'
  }

  function ParseDigits(s: string): Option<nat> {
    if s == [] || !IsDigit(s[|s| - 1]) then None
    else
      var last: nat := s[|s| - 1] as int - '0' as int;
      if |s| == 1 then Some(last)
      else
        var front := ParseDigits(s[..|s| - 1]);
        if front.None? then None
        else
          var n: nat := 10 * front.value + last;
          Some(n)
  }

  /** Number, on names that consist of a sign and digits. Other names are not taken for numbers here. */
  function ParseDecimal(s: string): Option<int> {
    var negative := s != [] && s[0] == '-';
    var n := ParseDigits(if negative then s[1..] else s);
    if n.None? then None
    else
      var sign: int := if negative then -1 else 1;
      Some(sign * n.value)
  }

  lemma {:induction false} DigitsParse(n: nat)
    ensures ParseDigits(Digits(n)) == Some(n)
  {
    if n >= 10 {
      DigitsParse(n / 10);
      var s := Digits(n);
      assert s[..|s| - 1] == Digits(n / 10);
    }
  }

  lemma DecimalParses(n: int)
    ensures ParseDecimal(Decimal(n)) == Some(n)
  {
    DigitsParse(if n < 0 then -n else n);
    if n < 0 {
      assert Decimal(n)[1..] == Digits(-n);
    }
  }

  lemma Names()
    ensures Decimal(0) == "0" && Decimal(19) == "19" && Decimal(208) == "208" && Decimal(-1) == "-1"
  {
    assert Digits(208) == Digits(20) + "8" && Digits(20) == Digits(2) + "0" && Digits(19) == Digits(1) + "9";
  }

  // Base64.

  /** The character of a number below 64. */
  function CharacterAt(n: nat): char
    requires n < 64
  {
    if n < 26 then ('A' as int + n) as char
    else if n < 52 then ('a' as int + n - 26) as char
    else if n < 62 then ('0' as int + n - 52) as char
    else if n == 62 then '+' else '/'
  }

  /** The number of a character, in either alphabet. Other characters are skipped. */
  function NumberOf(c: char): (r: Option<nat>)
    ensures r.Some? ==> r.value < 64
  {
    if 'A' <= c <= 'Z' then Some(c as int - 'A' as int)
    else if 'a' <= c <= 'z' then Some(c as int - 'a' as int + 26)
    else if '0' <= c <= '9' then Some(c as int - '0' as int + 52)
    else if c == '+' || c == '-' then Some(62)
    else if c == '/' || c == '_' then Some(63)
    else None
  }

  function Character(s: bv8): char
    requires s < 64
  {
    CharacterAt(s as nat)
  }

  function First(a: bv8): (r: bv8)
    ensures r < 64
  {
    a >> 2
  }

  function Second(a: bv8, b: bv8): (r: bv8)
    ensures r < 64
  {
    ((a & 3) << 4) | (b >> 4)
  }

  function Third(b: bv8, c: bv8): (r: bv8)
    ensures r < 64
  {
    ((b & 15) << 2) | (c >> 6)
  }

  function Fourth(c: bv8): (r: bv8)
    ensures r < 64
  {
    c & 63
  }

  /** buffer.toString("base64") */
  function Base64(bytes: Bytes): string {
    if |bytes| == 0 then ""
    else if |bytes| == 1 then [Character(First(bytes[0])), Character(Second(bytes[0], 0))] + "=="
    else if |bytes| == 2 then
      [Character(First(bytes[0])), Character(Second(bytes[0], bytes[1])), Character(Third(bytes[1], 0))] + "="
    else
      [Character(First(bytes[0])), Character(Second(bytes[0], bytes[1])), Character(Third(bytes[1], bytes[2])),
       Character(Fourth(bytes[2]))]
      + Base64(bytes[3..])
  }

  function AllSixBits(s: string): Bytes {
    if s == "" then []
    else (if NumberOf(s[0]).Some? then [NumberOf(s[0]).value as bv8] else []) + AllSixBits(s[1..])
  }

  function Packed(bits: Bytes): Bytes {
    if |bits| < 2 then []
    else
      var a := (bits[0] << 2) | (bits[1] >> 4);
      if |bits| == 2 then [a]
      else
        var b := (bits[1] << 4) | (bits[2] >> 2);
        if |bits| == 3 then [a, b] else [a, b, (bits[2] << 6) | bits[3]] + Packed(bits[4..])
  }

  /** Buffer.from(text, "base64") */
  function FromBase64(s: string): Bytes {
    Packed(AllSixBits(s))
  }

  function Groups(bytes: Bytes): Bytes {
    if |bytes| == 0 then []
    else if |bytes| == 1 then [First(bytes[0]), Second(bytes[0], 0)]
    else if |bytes| == 2 then [First(bytes[0]), Second(bytes[0], bytes[1]), Third(bytes[1], 0)]
    else
      [First(bytes[0]), Second(bytes[0], bytes[1]), Third(bytes[1], bytes[2]), Fourth(bytes[2])] + Groups(bytes[3..])
  }

  lemma BackToBits(s: bv8)
    ensures (s as int) as bv8 == s
  {
  }

  lemma CharacterReads(s: bv8)
    requires s < 64
    ensures var n := NumberOf(Character(s)); n.Some? && n.value as bv8 == s
  {
    BackToBits(s);
    NumberReads(s as nat);
    hide CharacterAt, NumberOf;
  }

  lemma NumberReads(n: nat)
    requires n < 64
    ensures NumberOf(CharacterAt(n)) == Some(n)
  {
  }

  lemma SkipPadding(n: nat)
    requires n <= 2
    ensures AllSixBits("=="[..n]) == []
  {
    assert "=="[..0] == "" && "=="[..1] == "=" && "=="[..2] == "==";
    assert "="[1..] == "" && "=="[1..] == "=";
  }

  lemma ReadsOne(s: bv8, rest: string)
    requires s < 64
    ensures AllSixBits([Character(s)] + rest) == [s] + AllSixBits(rest)
  {
    CharacterReads(s);
    assert ([Character(s)] + rest)[1..] == rest;
    hide Character, NumberOf;
  }

  lemma ReadsThree(a: bv8, b: bv8, c: bv8, rest: string)
    requires a < 64 && b < 64 && c < 64
    ensures AllSixBits([Character(a), Character(b), Character(c)] + rest) == [a, b, c] + AllSixBits(rest)
  {
    hide AllSixBits, Character;
    ReadsOne(c, rest);
    ReadsOne(b, [Character(c)] + rest);
    ReadsOne(a, [Character(b)] + ([Character(c)] + rest));
    assert [Character(a), Character(b), Character(c)] + rest
        == [Character(a)] + ([Character(b)] + ([Character(c)] + rest));
  }

  lemma ReadsFour(a: bv8, b: bv8, c: bv8, d: bv8, rest: string)
    requires a < 64 && b < 64 && c < 64 && d < 64
    ensures AllSixBits([Character(a), Character(b), Character(c), Character(d)] + rest) == [a, b, c, d]
            + AllSixBits(rest)
  {
    hide AllSixBits, Character;
    ReadsOne(d, rest);
    ReadsThree(a, b, c, [Character(d)] + rest);
    assert [Character(a), Character(b), Character(c), Character(d)] + rest
        == [Character(a), Character(b), Character(c)] + ([Character(d)] + rest);
  }

  lemma ReadsTwo(a: bv8, b: bv8, rest: string)
    requires a < 64 && b < 64
    ensures AllSixBits([Character(a), Character(b)] + rest) == [a, b] + AllSixBits(rest)
  {
    hide AllSixBits, Character;
    ReadsOne(b, rest);
    ReadsOne(a, [Character(b)] + rest);
    assert [Character(a), Character(b)] + rest == [Character(a)] + ([Character(b)] + rest);
  }

  lemma {:induction false} ReadsGroups(bytes: Bytes)
    ensures AllSixBits(Base64(bytes)) == Groups(bytes)
  {
    SkipPadding(1);
    SkipPadding(2);
    assert "=="[..1] == "=" && "=="[..2] == "==";
    hide AllSixBits, Character, First, Second, Third, Fourth;
    if |bytes| == 0 {
      NoBits();
    } else if |bytes| == 1 {
      ReadsTwo(First(bytes[0]), Second(bytes[0], 0), "==");
    } else if |bytes| == 2 {
      ReadsThree(First(bytes[0]), Second(bytes[0], bytes[1]), Third(bytes[1], 0), "=");
    } else {
      ReadsGroups(bytes[3..]);
      ReadsFour(First(bytes[0]), Second(bytes[0], bytes[1]), Third(bytes[1], bytes[2]), Fourth(bytes[2]),
                Base64(bytes[3..]));
    }
  }

  lemma NoBits()
    ensures AllSixBits("") == []
  {
  }

  lemma BytesOfGroup(a: bv8, b: bv8, c: bv8)
    ensures (First(a) << 2) | (Second(a, b) >> 4) == a
    ensures (Second(a, b) << 4) | (Third(b, c) >> 2) == b
    ensures (Third(b, c) << 6) | Fourth(c) == c
  {
  }

  lemma {:induction false} PacksGroups(bytes: Bytes)
    ensures Packed(Groups(bytes)) == bytes
  {
    if |bytes| == 1 {
      BytesOfGroup(bytes[0], 0, 0);
    } else if |bytes| == 2 {
      BytesOfGroup(bytes[0], bytes[1], 0);
    } else if |bytes| > 2 {
      BytesOfGroup(bytes[0], bytes[1], bytes[2]);
      PacksGroups(bytes[3..]);
      assert Groups(bytes)[4..] == Groups(bytes[3..]);
    }
  }

  /** What is written as base64 is read back. */
  lemma Base64Reads(bytes: Bytes)
    ensures FromBase64(Base64(bytes)) == bytes
  {
    ReadsGroups(bytes);
    PacksGroups(bytes);
  }

  lemma Base64Injective(a: Bytes, b: Bytes)
    requires Base64(a) == Base64(b)
    ensures a == b
  {
    Base64Reads(a);
    Base64Reads(b);
  }

  lemma Base64Empty(bytes: Bytes)
    ensures Base64(bytes) == "" <==> bytes == []
  {
  }

  /** Four characters for three bytes, with padding. */
  lemma {:induction false} Base64Length(bytes: Bytes)
    ensures |Base64(bytes)| == 4 * ((|bytes| + 2) / 3)
  {
    if |bytes| >= 3 {
      Base64Length(bytes[3..]);
    }
  }

  /** The test vectors of section 10 of RFC 4648. */
  lemma Vectors()
    ensures Base64([0x66]) == "Zg==" && Base64([0x66, 0x6f]) == "Zm8=" && Base64([0x66, 0x6f, 0x6f]) == "Zm9v"
    ensures Base64([0x66, 0x6f, 0x6f, 0x62, 0x61, 0x72]) == "Zm9vYmFy"
  {
    var end: Bytes := [];
    assert [0x66, 0x6f, 0x6f][3..] == end;
    assert [0x66, 0x6f, 0x6f, 0x62, 0x61, 0x72][3..] == [0x62, 0x61, 0x72];
    assert [0x62, 0x61, 0x72][3..] == end;
    assert Base64(end) == "";
  }
}
