/** Base64 (section 4 of RFC 4648) over signed characters.

    `temp & mask >> k` on a two's complement number is `temp / 2^k % 64` with division rounding down, and
    `temp <<= 6; temp |= v` is `(temp * 64 + v) % 2^64` for the 64-bit accumulator. */
module Base64 {
  import opened Values

  type Char = x: int | -128 <= x < 128

  const PAD := '=' as int

  // ----- the alphabet -----

  /** The lookup table. */
  function Digit(v: nat): int
    requires v < 64
  {
    if v < 26 then 0x41 + v
    else if v < 52 then 0x61 + (v - 26)
    else if v < 62 then 0x30 + (v - 52)
    else if v == 62 then 0x2B
    else 0x2F
  }

  /** What a character adds to the accumulator: nothing when it is not a digit. */
  function DigitValue(c: int): (v: nat)
    ensures v < 64
  {
    if 0x41 <= c <= 0x5A then c - 0x41
    else if 0x61 <= c <= 0x7A then c - 0x47
    else if 0x30 <= c <= 0x39 then c + 0x04
    else if c == 0x2B then 0x3E
    else if c == 0x2F then 0x3F
    else 0
  }

  lemma DigitInverse(v: nat)
    requires v < 64
    ensures DigitValue(Digit(v)) == v && Digit(v) != PAD
  {
  }

  const UPPER: string := "ABCDEFGHIJKLMNOPQRSTUVWXYZ"
  const LOWER: string := "abcdefghijklmnopqrstuvwxyz"
  const ALPHABET: string := UPPER + LOWER + "0123456789+/"

  /** The digits are the standard's (Table 1), and a character counts for its place there or for nothing. */
  lemma Alphabet(v: nat, c: int)
    requires v < 64
    ensures |ALPHABET| == 64 && Digit(v) == ALPHABET[v] as int && PAD == '=' as int
    ensures DigitValue(c) != 0 ==> Digit(DigitValue(c)) == c
  {
    assert forall i :: 0 <= i < 26 ==> UPPER[i] as int == 0x41 + i;
    assert forall i :: 0 <= i < 26 ==> LOWER[i] as int == 0x61 + i;
    assert forall i :: 0 <= i < 10 ==> "0123456789+/"[i] as int == 0x30 + i;
    if v < 26 {
      assert ALPHABET[v] == UPPER[v];
    } else if v < 52 {
      assert ALPHABET[v] == LOWER[v - 26];
    } else {
      assert ALPHABET[v] == "0123456789+/"[v - 52];
    }
  }

  // ----- encoding -----

  /** Up to three characters as one number, the first one highest. */
  function Group(s: seq<Char>): int
    requires 1 <= |s| <= 3
  {
    var c0: int, c1: int, c2: int := s[0], if |s| > 1 then s[1] else 0, if |s| > 2 then s[2] else 0;
    c0 * 0x10000 + c1 * 0x100 + c2
  }

  /** Six bits of the low 24, the highest first. */
  function Bits18(t: int): (v: nat) ensures v < 64 { t / 0x40000 % 64 }
  function Bits12(t: int): (v: nat) ensures v < 64 { t / 0x1000 % 64 }
  function Bits6(t: int): (v: nat) ensures v < 64 { t / 0x40 % 64 }
  function Bits0(t: int): (v: nat) ensures v < 64 { t % 64 }

  function EncodeGroup(s: seq<Char>): (r: seq<int>)
    requires 1 <= |s| <= 3
    ensures |r| == 4
  {
    var t := Group(s);
    [Digit(Bits18(t)), Digit(Bits12(t)),
     if |s| > 1 then Digit(Bits6(t)) else PAD, if |s| > 2 then Digit(Bits0(t)) else PAD]
  }

  function Encoded(s: seq<Char>): seq<int> {
    if s == [] then [] else if |s| < 3 then EncodeGroup(s) else EncodeGroup(s[..3]) + Encoded(s[3..])
  }

  /** Four digits for every three characters begun. */
  lemma {:induction false} EncodedLength(s: seq<Char>)
    ensures |Encoded(s)| == (|s| + 2) / 3 * 4
    decreases |s|
  {
    if |s| >= 3 {
      EncodedLength(s[3..]);
    }
  }

  /** There is a pad character for each character that the last group lacks, at the end and nowhere else. */
  lemma {:induction false} PadsAtEnd(s: seq<Char>, k: nat)
    requires k < |Encoded(s)|
    ensures Encoded(s)[k] == '=' as int <==> k >= |Encoded(s)| - (3 - |s| % 3) % 3
    decreases |s|
  {
    hide Encoded, EncodeGroup;
    EncodedLength(s);
    if |s| == 0 {
      assert false;
    } else if |s| <= 3 {
      OneGroup(s);
      GroupPads(s, k);
    } else {
      EncodedStep(s);
      EncodedLength(s[3..]);
      GroupPads(s[..3], if k < 4 then k else 0);
      if k >= 4 {
        PadsAtEnd(s[3..], k - 4);
      }
    }
  }

  lemma GroupPads(g: seq<Char>, k: nat)
    requires 1 <= |g| <= 3 && k < 4
    ensures |EncodeGroup(g)| == 4 && (EncodeGroup(g)[k] == PAD <==> k >= 1 + |g|)
  {
    hide Digit, Bits18, Bits12, Bits6, Bits0;
    NoPads(Group(g));
  }

  lemma NoPads(t: int)
    ensures Digit(Bits18(t)) != PAD && Digit(Bits12(t)) != PAD && Digit(Bits6(t)) != PAD && Digit(Bits0(t)) != PAD
  {
  }

  /** The beginning of the test vectors of section 10, both ways: "f", "fo" and "foo". */
  lemma TestVectors(s: seq<Char>)
    requires s == [102] || s == [102, 111] || s == [102, 111, 111]
    ensures Encoded(s) == [90] + (if |s| == 1 then [103, 61, 61] else if |s| == 2 then [109, 56, 61]
                                  else [109, 57, 118])
    ensures Decoded(Encoded(s)) == Some(s)
  {
    hide Decoded, Encoded, Digit, Bits18, Bits12, Bits6, Bits0;
    SevenBitRoundTrip(s);
    OneGroup(s);
    if |s| == 1 {
      Sextets(Group(s), 104448, 1632, 25, 0, 0, 0, 32, 25);
    } else if |s| == 2 {
      Sextets(Group(s), 104892, 1638, 25, 0, 0, 60, 38, 25);
    } else {
      Sextets(Group(s), 104893, 1638, 25, 0, 47, 61, 38, 25);
    }
    Digits();
  }

  lemma Digits()
    ensures Digit(25) == 90 && Digit(32) == 103 && Digit(38) == 109 && Digit(60) == 56 && Digit(61) == 57
            && Digit(47) == 118
  {
  }

  lemma OneGroup(s: seq<Char>)
    requires 1 <= |s| <= 3
    ensures Encoded(s) == EncodeGroup(s)
  {
    hide EncodeGroup;
    assert |s| == 3 ==> s[..3] == s && s[3..] == [];
  }

  method Encode(input: seq<Char>) returns (encoded: seq<int>)
    ensures encoded == Encoded(input)
  {
    hide Digit, Bits18, Bits12, Bits6, Bits0, Encoded;
    assert Encoded([]) == [] by { EncodedLength([]); }
    assert input[0..] == input;
    encoded := [];
    var cursor := 0;
    for idx := 0 to |input| / 3
      invariant cursor == 3 * idx
      invariant encoded + Encoded(input[cursor..]) == Encoded(input)
    {
      var temp: int := input[cursor] as int * 0x10000;
      temp := temp + input[cursor + 1] as int * 0x100;
      temp := temp + input[cursor + 2];
      NextGroup(input, cursor, temp);
      encoded := encoded + [Digit(Bits18(temp))];
      encoded := encoded + [Digit(Bits12(temp))];
      encoded := encoded + [Digit(Bits6(temp))];
      encoded := encoded + [Digit(Bits0(temp))];
      cursor := cursor + 3;
    }
    if |input| % 3 == 1 {
      var temp: int := input[cursor] as int * 0x10000;
      LastGroup(input[cursor..], temp);
      encoded := encoded + [Digit(Bits18(temp)), Digit(Bits12(temp)), PAD, PAD];
    } else if |input| % 3 == 2 {
      var temp: int := input[cursor] as int * 0x10000 + input[cursor + 1] as int * 0x100;
      LastGroup(input[cursor..], temp);
      encoded := encoded + [Digit(Bits18(temp)), Digit(Bits12(temp)), Digit(Bits6(temp)), PAD];
    } else {
      assert input[cursor..] == [] && encoded + [] == encoded;
    }
  }

  lemma NextGroup(input: seq<Char>, cursor: nat, t: int)
    requires cursor + 3 <= |input|
    requires t == input[cursor] as int * 0x10000 + input[cursor + 1] as int * 0x100 + input[cursor + 2] as int
    ensures Encoded(input[cursor..])
            == [Digit(Bits18(t)), Digit(Bits12(t)), Digit(Bits6(t)), Digit(Bits0(t))] + Encoded(input[cursor + 3..])
  {
    hide Digit, Bits18, Bits12, Bits6, Bits0;
    var rest := input[cursor..];
    assert rest[..3] == [input[cursor], input[cursor + 1], input[cursor + 2]];
    assert rest[3..] == input[cursor + 3..];
  }

  lemma LastGroup(s: seq<Char>, t: int)
    requires (|s| == 1 && t == s[0] as int * 0x10000) || (|s| == 2 && t == s[0] as int * 0x10000 + s[1] as int * 0x100)
    ensures Encoded(s) == [Digit(Bits18(t)), Digit(Bits12(t)), if |s| > 1 then Digit(Bits6(t)) else PAD, PAD]
  {
    hide Digit, Bits18, Bits12, Bits6, Bits0;
  }

  // ----- decoding -----

  function ToChar(b: int): Char
    requires 0 <= b < 256
  {
    if b < 128 then b else b - 256
  }

  /** Eight bits of the low 24, the highest first. */
  function Byte16(t: int): Char { ToChar(t / 0x10000 % 256) }
  function Byte8(t: int): Char { ToChar(t / 0x100 % 256) }
  function Byte0(t: int): Char { ToChar(t % 256) }

  /** Bits 10 to 17: the first byte when only three digits have been shifted in. */
  function Byte10(t: int): Char { ToChar(t / 0x400 % 256) }

  /** Four digits as one 24-bit number. */
  function Quantum(t: seq<int>): (q: nat)
    requires |t| == 4
    ensures q < 0x1000000
  {
    DigitValue(t[0]) * 0x40000 + DigitValue(t[1]) * 0x1000 + DigitValue(t[2]) * 0x40 + DigitValue(t[3])
  }

  /** Only the last quantum may end early, at a pad character in its third or fourth place. */
  function DecodeLast(t: seq<int>): seq<Char>
    requires |t| == 4
  {
    var q := Quantum(t);
    if t[2] == PAD then [Byte16(q)]
    else if t[3] == PAD then [Byte16(q), Byte8(q)]
    else [Byte16(q), Byte8(q), Byte0(q)]
  }

  function DecodeFull(t: seq<int>): seq<Char>
    requires |t| == 4
  {
    var q := Quantum(t);
    [Byte16(q), Byte8(q), Byte0(q)]
  }

  /** Well-sized input, quantum by quantum. */
  function Quanta(t: seq<int>): seq<Char>
    requires |t| % 4 == 0
  {
    if t == [] then [] else if |t| == 4 then DecodeLast(t) else DecodeFull(t[..4]) + Quanta(t[4..])
  }

  /** All digits so far as one number; characters that are no digits count as zeros. */
  function Acc(t: seq<int>, k: nat): nat
    requires k <= |t|
  {
    if k == 0 then 0 else Acc(t, k - 1) * 64 + DigitValue(t[k - 1])
  }

  /** The first `q` quanta, three bytes each. */
  function Full(t: seq<int>, q: nat): seq<Char>
    requires 4 * q <= |t|
  {
    if q == 0 then []
    else
      var acc := Acc(t, 4 * q);
      Full(t, q - 1) + [Byte16(acc), Byte8(acc), Byte0(acc)]
  }

  /** What any text decodes to.  Only its last two characters can be pads that end it.  None when the decoder
      looks at a character outside the text or reserves a negative length, which is when fewer than four
      characters are given, or some digits are left over and no pad ends them. */
  function Decoded(t: seq<int>): Option<seq<Char>> {
    var n := |t|;
    if n == 0 then Some([])
    else if n < 4 then None
    else if t[n - 2] == PAD then Some(Full(t, (n - 2) / 4) + [Byte10(Acc(t, n - 1))])
    else if t[n - 1] == PAD then Some(Full(t, (n - 1) / 4) + [Byte16(Acc(t, n)), Byte8(Acc(t, n))])
    else if n % 4 == 0 then Some(Full(t, n / 4))
    else None
  }

  const WIDTH := 0x1_0000_0000_0000_0000

  /** No pad that ends the text lies before `cursor`. */
  predicate NoEnd(t: seq<int>, cursor: nat) {
    && (|t| >= 2 && t[|t| - 2] == PAD ==> cursor <= |t| - 2)
    && (|t| >= 1 && t[|t| - 1] == PAD ==> cursor <= |t| - 1)
  }

  /** Decodes; None when a character outside the text would be read, or the length to reserve is negative. */
  method Decode(input: seq<int>) returns (decoded: Option<seq<Char>>)
    ensures decoded == Decoded(input)
  {
    hide DigitValue, Byte16, Byte8, Byte0, Byte10, Full, Acc;
    var padding := 0;
    if |input| > 0 {
      if input[|input| - 1] == PAD {
        padding := padding + 1;
      }
      if |input| < 2 {
        return None;
      }
      if input[|input| - 2] == PAD {
        padding := padding + 1;
      }
    }
    if |input| / 4 * 3 < padding {
      return None;
    }
    var bytes: seq<Char> := [];
    var temp: nat := 0;
    var cursor := 0;
    NothingRead(input);
    while cursor < |input|
      invariant cursor <= |input| && cursor % 4 == 0 && NoEnd(input, cursor)
      invariant temp == Acc(input, cursor) % WIDTH && bytes == Full(input, cursor / 4)
    {
      ghost var start := cursor;
      var position := 0;
      while position < 4
        invariant 0 <= position <= 4 && cursor == start + position <= |input| && NoEnd(input, cursor)
        invariant temp == Acc(input, cursor) % WIDTH
      {
        if cursor >= |input| {
          return None;
        }
        var c := input[cursor];
        ShiftIn(input, cursor, temp);
        temp := (temp * 64 + DigitValue(c)) % WIDTH;
        LowBits(Acc(input, cursor + 1), temp);
        if c == PAD {
          if |input| - cursor == 1 {
            bytes := bytes + [Byte16(temp), Byte8(temp)];
            return Some(bytes);
          } else if |input| - cursor == 2 {
            bytes := bytes + [Byte10(temp)];
            return Some(bytes);
          }
        }
        position := position + 1;
        cursor := cursor + 1;
      }
      FullStep(input, cursor / 4, temp);
      bytes := bytes + [Byte16(temp), Byte8(temp), Byte0(temp)];
    }
    decoded := Some(bytes);
  }

  lemma NothingRead(t: seq<int>)
    ensures Acc(t, 0) % WIDTH == 0 && Full(t, 0) == []
  {
  }

  /** One more digit shifted into the 64 bits of the accumulator. */
  lemma ShiftIn(t: seq<int>, k: nat, temp: nat)
    requires k < |t| && temp == Acc(t, k) % WIDTH
    ensures (temp * 64 + DigitValue(t[k])) % WIDTH == Acc(t, k + 1) % WIDTH
  {
    hide DigitValue;
    var w := Acc(t, k) / WIDTH;
    assert Acc(t, k + 1) == temp * 64 + DigitValue(t[k]) + WIDTH * (64 * w);
    Multiple(temp * 64 + DigitValue(t[k]), 64 * w);
  }

  lemma Multiple(x: nat, k: nat)
    ensures (x + WIDTH * k) % WIDTH == x % WIDTH
  {
    var q := x / WIDTH;
    assert x + WIDTH * k == WIDTH * (q + k) + x % WIDTH;
  }

  lemma FullStep(t: seq<int>, q: nat, temp: nat)
    requires 0 < q && 4 * q <= |t| && temp == Acc(t, 4 * q) % WIDTH
    ensures Full(t, q) == Full(t, q - 1) + [Byte16(temp), Byte8(temp), Byte0(temp)]
  {
    hide Byte16, Byte8, Byte0, Acc;
    LowBits(Acc(t, 4 * q), temp);
  }

  /** The bytes that are taken out only depend on the low 24 bits, so what is lost above the 64 does not matter. */
  lemma LowBits(acc: nat, temp: nat)
    requires temp == acc % WIDTH
    ensures Byte16(temp) == Byte16(acc) && Byte8(temp) == Byte8(acc) && Byte0(temp) == Byte0(acc)
            && Byte10(temp) == Byte10(acc)
  {
    hide Byte16, Byte8, Byte0, Byte10;
    var k := acc / WIDTH;
    assert acc == temp + 0x1000000 * (0x100_0000_0000 * k);
    SameBytes(temp, 0x100_0000_0000 * k);
  }

  lemma SameBytes(x: int, k: int)
    ensures var y := x + 0x1000000 * k;
            Byte16(y) == Byte16(x) && Byte8(y) == Byte8(x) && Byte0(y) == Byte0(x) && Byte10(y) == Byte10(x)
  {
    hide ToChar;
    var y := x + 0x1000000 * k;
    Quotient16(y, 0x100 * k + x / 0x10000, x % 0x10000);
    Quotient8(y, 0x10000 * k + x / 0x100, x % 0x100);
    Quotient10(y, 0x4000 * k + x / 0x400, x % 0x400);
    SameByte(x / 0x10000, k);
    SameByte(x / 0x100, 0x100 * k);
    SameByte(x / 0x400, 0x40 * k);
    SameByte(x, 0x10000 * k);
  }

  lemma Quotient16(x: int, a: int, r: int)
    requires x == 0x10000 * a + r && 0 <= r < 0x10000
    ensures x / 0x10000 == a && x % 0x10000 == r
  {
  }

  lemma Quotient8(x: int, a: int, r: int)
    requires x == 0x100 * a + r && 0 <= r < 0x100
    ensures x / 0x100 == a && x % 0x100 == r
  {
  }

  lemma Quotient10(x: int, a: int, r: int)
    requires x == 0x400 * a + r && 0 <= r < 0x400
    ensures x / 0x400 == a
  {
  }

  lemma SameByte(b: int, k: int)
    ensures (0x100 * k + b) % 0x100 == b % 0x100
  {
    Quotient8(0x100 * k + b, k + b / 0x100, b % 0x100);
  }

  // ----- well-sized input -----

  /** The accumulator is never reset, but its low 24 bits are the last four digits. */
  lemma AccIsQuantum(t: seq<int>, k: nat)
    requires 4 <= k <= |t|
    ensures Acc(t, k) == Quantum(t[k - 4..k]) + 0x1000000 * Acc(t, k - 4)
  {
    hide DigitValue;
    var d := t[k - 4..k];
    assert Acc(t, k - 3) == Acc(t, k - 4) * 64 + DigitValue(d[0]);
    assert Acc(t, k - 2) == Acc(t, k - 3) * 64 + DigitValue(d[1]);
    assert Acc(t, k - 1) == Acc(t, k - 2) * 64 + DigitValue(d[2]);
    assert Acc(t, k) == Acc(t, k - 1) * 64 + DigitValue(d[3]);
  }

  lemma QuantumBytes(t: seq<int>, k: nat)
    requires 4 <= k <= |t|
    ensures var acc, q := Acc(t, k), Quantum(t[k - 4..k]);
            Byte16(acc) == Byte16(q) && Byte8(acc) == Byte8(q) && Byte0(acc) == Byte0(q)
  {
    hide Byte16, Byte8, Byte0, Byte10, Acc, Quantum;
    AccIsQuantum(t, k);
    SameBytes(Quantum(t[k - 4..k]), Acc(t, k - 4));
  }

  lemma {:induction false} FullFront(t: seq<int>, q: nat)
    requires 0 < q && 4 * q <= |t|
    ensures Full(t, q) == DecodeFull(t[..4]) + Full(t[4..], q - 1)
    decreases q
  {
    hide Byte16, Byte8, Byte0, Acc, Quantum;
    QuantumBytes(t, 4 * q);
    if q == 1 {
      assert Full(t, 0) == [];
    } else {
      FullFront(t, q - 1);
      QuantumBytes(t[4..], 4 * q - 4);
      assert t[4..][4 * q - 8..4 * q - 4] == t[4 * q - 4..4 * q];
    }
  }

  /** One pad character: two bytes of the quantum; two pad characters: the accumulator has one digit less and
      its bits 10 to 17 are the first byte. */
  lemma PaddedByte(acc: nat, v0: nat, v1: nat, v3: nat, k: nat)
    requires v0 < 64 && v1 < 64 && v3 < 64 && acc == 0x40000 * k + v0 * 0x1000 + v1 * 0x40
    ensures Byte10(acc) == Byte16(v0 * 0x40000 + v1 * 0x1000 + v3)
  {
    hide ToChar;
    var h, r := v1 / 16, v1 % 16;
    var b := v0 * 4 + h;
    assert v1 == 16 * h + r;
    Quotient10(acc, 0x100 * k + b, r * 0x40);
    Quotient16(v0 * 0x40000 + v1 * 0x1000 + v3, b, r * 0x1000 + v3);
    SameByte(b, k);
  }

  /** All quanta but the last are decoded alike. */
  lemma {:induction false} QuantaLast(t: seq<int>)
    requires |t| % 4 == 0 && t != []
    ensures Quanta(t) == Full(t, |t| / 4 - 1) + DecodeLast(t[|t| - 4..])
    decreases |t|
  {
    hide DecodeFull, DecodeLast, Full, Quanta;
    if |t| == 4 {
      NothingRead(t);
      assert t[|t| - 4..] == t;
      QuantaOne(t);
    } else {
      QuantaLast(t[4..]);
      FullFront(t, |t| / 4 - 1);
      assert t[4..][|t[4..]| - 4..] == t[|t| - 4..];
      QuantaStep(t);
    }
  }

  /** The last quantum, however it ends. */
  lemma LastBytes(t: seq<int>, q: nat)
    requires |t| == 4 * q + 4
    ensures Decoded(t) == Some(Full(t, q) + DecodeLast(t[|t| - 4..]))
  {
    hide Byte16, Byte8, Byte0, Byte10, Acc, Quantum, DigitValue, Full, Decoded;
    var n := |t|;
    var d := t[n - 4..];
    assert d == t[n - 4..n] && d[2] == t[n - 2] && d[3] == t[n - 1];
    QuantumBytes(t, n);
    WellSized(t, q);
    if t[n - 2] == PAD {
      TwoPads(t);
    } else if t[n - 1] != PAD {
      FullSnoc(t, q + 1);
    }
  }

  lemma WellSized(t: seq<int>, q: nat)
    requires |t| == 4 * q + 4
    ensures var n := |t|;
            Decoded(t) == Some(
              if t[n - 2] == PAD then Full(t, q) + [Byte10(Acc(t, n - 1))]
              else if t[n - 1] == PAD then Full(t, q) + [Byte16(Acc(t, n)), Byte8(Acc(t, n))]
              else Full(t, q + 1))
  {
    hide Byte16, Byte8, Byte0, Byte10, Acc, Full;
    assert (|t| - 2) / 4 == q && (|t| - 1) / 4 == q && |t| / 4 == q + 1;
  }

  lemma FullSnoc(t: seq<int>, q: nat)
    requires 0 < q && 4 * q <= |t|
    ensures var acc := Acc(t, 4 * q); Full(t, q) == Full(t, q - 1) + [Byte16(acc), Byte8(acc), Byte0(acc)]
  {
  }

  lemma TwoPads(t: seq<int>)
    requires |t| >= 4 && t[|t| - 2] == PAD
    ensures Byte10(Acc(t, |t| - 1)) == Byte16(Quantum(t[|t| - 4..]))
  {
    hide Byte10, Byte16, Acc, DigitValue;
    var n, d := |t|, t[|t| - 4..];
    PadInverse();
    ThreeDigits(t, n - 4);
    ShortQuantum(d);
    PaddedByte(Acc(t, n - 1), DigitValue(d[0]), DigitValue(d[1]), DigitValue(d[3]), Acc(t, n - 4));
  }

  lemma ShortQuantum(d: seq<int>)
    requires |d| == 4 && DigitValue(d[2]) == 0
    ensures Quantum(d) == DigitValue(d[0]) * 0x40000 + DigitValue(d[1]) * 0x1000 + DigitValue(d[3])
  {
    hide DigitValue;
  }

  lemma NextDigit(t: seq<int>, k: nat)
    requires k < |t|
    ensures Acc(t, k + 1) == Acc(t, k) * 64 + DigitValue(t[k])
  {
  }

  lemma ThreeDigits(t: seq<int>, k: nat)
    requires k + 3 <= |t|
    ensures Acc(t, k + 3) == Acc(t, k) * 0x40000 + DigitValue(t[k]) * 0x1000 + DigitValue(t[k + 1]) * 0x40
            + DigitValue(t[k + 2])
  {
    hide DigitValue, Acc;
    NextDigit(t, k);
    NextDigit(t, k + 1);
    NextDigit(t, k + 2);
  }

  /** The decoder handles a text of whole quanta quantum by quantum. */
  lemma DecodedQuanta(t: seq<int>)
    requires |t| % 4 == 0
    ensures Decoded(t) == Some(Quanta(t))
  {
    if t != [] {
      hide Quanta, Decoded, DecodeLast;
      QuantaLast(t);
      LastBytes(t, |t| / 4 - 1);
    }
  }

  // ----- round trip -----

  /** A negative character takes one from the byte before it in its group. */
  predicate CarryFree(s: seq<Char>) {
    forall i :: 0 <= i < |s| && i % 3 != 0 ==> s[i] >= 0
  }

  lemma GroupDigits(s: seq<Char>)
    requires 1 <= |s| <= 3
    ensures Quantum(EncodeGroup(s)) == Group(s) % 0x1000000
  {
    hide Bits18, Bits12, Bits6, Bits0, Digit, DigitValue;
    var t := Group(s);
    DigitInverse(Bits18(t));
    DigitInverse(Bits12(t));
    DigitInverse(Bits6(t));
    DigitInverse(Bits0(t));
    PadInverse();
    MissingDigits(s);
    SextetSum(t);
  }

  lemma PadInverse()
    ensures DigitValue(PAD) == 0
  {
  }

  lemma MissingDigits(s: seq<Char>)
    requires 1 <= |s| <= 3
    ensures (|s| < 3 ==> Bits0(Group(s)) == 0) && (|s| < 2 ==> Bits6(Group(s)) == 0)
  {
    var t := Group(s);
    if |s| == 1 {
      Quotient6(t, s[0] as int * 0x400, 0);
      Quotient6(s[0] as int * 0x400, s[0] as int * 0x10, 0);
    } else if |s| == 2 {
      Quotient6(t, s[0] as int * 0x400 + s[1] as int * 4, 0);
    }
  }

  lemma Quotient6(x: int, a: int, r: int)
    requires x == 0x40 * a + r && 0 <= r < 0x40
    ensures x / 0x40 == a && x % 0x40 == r
  {
  }

  lemma Quotient12(x: int, a: int, r: int)
    requires x == 0x1000 * a + r && 0 <= r < 0x1000
    ensures x / 0x1000 == a
  {
  }

  lemma Quotient18(x: int, a: int, r: int)
    requires x == 0x40000 * a + r && 0 <= r < 0x40000
    ensures x / 0x40000 == a
  {
  }

  lemma Quotient24(x: int, a: int, r: int)
    requires x == 0x1000000 * a + r && 0 <= r < 0x1000000
    ensures x % 0x1000000 == r
  {
  }

  /** The four digits put together again. */
  lemma SextetSum(t: int)
    ensures Bits18(t) * 0x40000 + Bits12(t) * 0x1000 + Bits6(t) * 0x40 + Bits0(t) == t % 0x1000000
  {
    var a, s0 := t / 0x40, t % 0x40;
    var b, s1 := a / 0x40, a % 0x40;
    var c, s2 := b / 0x40, b % 0x40;
    var d, s3 := c / 0x40, c % 0x40;
    Sextets(t, a, b, c, d, s0, s1, s2, s3);
  }

  lemma Sextets(t: int, a: int, b: int, c: int, d: int, s0: int, s1: int, s2: int, s3: int)
    requires t == 0x40 * a + s0 && a == 0x40 * b + s1 && b == 0x40 * c + s2 && c == 0x40 * d + s3
    requires 0 <= s0 < 0x40 && 0 <= s1 < 0x40 && 0 <= s2 < 0x40 && 0 <= s3 < 0x40
    ensures Bits18(t) == s3 && Bits12(t) == s2 && Bits6(t) == s1 && Bits0(t) == s0
    ensures t % 0x1000000 == s3 * 0x40000 + s2 * 0x1000 + s1 * 0x40 + s0
  {
    Quotient6(t, a, s0);
    Quotient12(t, b, s1 * 0x40 + s0);
    Quotient18(t, c, s2 * 0x1000 + s1 * 0x40 + s0);
    Quotient24(t, d, s3 * 0x40000 + s2 * 0x1000 + s1 * 0x40 + s0);
    Quotient6(a, b, s1);
    Quotient6(b, c, s2);
    Quotient6(c, d, s3);
  }

  lemma GroupBytes(s: seq<Char>)
    requires 1 <= |s| <= 3
    ensures var q := Group(s) % 0x1000000;
            var r := [Byte16(q), Byte8(q), Byte0(q)][..|s|];
            r == s <==> ((|s| > 1 ==> s[1] >= 0) && (|s| > 2 ==> s[2] >= 0))
  {
    var t := Group(s);
    var c0: int, c1: int, c2: int := s[0], if |s| > 1 then s[1] else 0, if |s| > 2 then s[2] else 0;
    ThreeBytes(c0, c1, c2);
    LowBytes(t);
    var q := t % 0x1000000;
    assert [Byte16(q), Byte8(q), Byte0(q)][..|s|]
           == if |s| == 1 then [Byte16(q)] else if |s| == 2 then [Byte16(q), Byte8(q)]
              else [Byte16(q), Byte8(q), Byte0(q)];
    assert s == if |s| == 1 then [s[0]] else if |s| == 2 then [s[0], s[1]] else [s[0], s[1], s[2]];
  }

  lemma LowBytes(t: int)
    ensures var q := t % 0x1000000; Byte16(t) == Byte16(q) && Byte8(t) == Byte8(q) && Byte0(t) == Byte0(q)
  {
    hide Byte16, Byte8, Byte0, Byte10;
    var k, q := t / 0x1000000, t % 0x1000000;
    assert t == q + 0x1000000 * k;
    SameBytes(q, k);
  }

  /** A negative character borrows from the byte above it. */
  lemma ThreeBytes(c0: int, c1: int, c2: int)
    requires -128 <= c0 < 128 && -128 <= c1 < 128 && -128 <= c2 < 128
    ensures var t := c0 * 0x10000 + c1 * 0x100 + c2;
            && Byte0(t) == c2
            && (Byte8(t) == c1 <==> c2 >= 0)
            && (c2 >= 0 ==> (Byte16(t) == c0 <==> c1 >= 0))
  {
    var t := c0 * 0x10000 + c1 * 0x100 + c2;
    var e2, e1 := if c2 < 0 then -1 else 0, if c1 * 0x100 + c2 < 0 then -1 else 0;
    Quotient8(t, c0 * 0x100 + c1 + e2, c2 - 0x100 * e2);
    Quotient16(t, c0 + e1, c1 * 0x100 + c2 - 0x10000 * e1);
    SameByte(c1 + e2, c0);
  }

  lemma GroupRoundTrip(s: seq<Char>)
    requires 1 <= |s| <= 3
    ensures DecodeLast(EncodeGroup(s)) == s <==> ((|s| > 1 ==> s[1] >= 0) && (|s| > 2 ==> s[2] >= 0))
    ensures |DecodeLast(EncodeGroup(s))| == |s|
    ensures |s| == 3 ==> DecodeFull(EncodeGroup(s)) == DecodeLast(EncodeGroup(s))
  {
    GroupDigits(s);
    GroupBytes(s);
    var t := Group(s);
    DigitInverse(Bits6(t));
    DigitInverse(Bits0(t));
  }

  /** Decoding undoes encoding if and only if no character with its high bit set is the second or third of
      its group of three; otherwise it yields other characters. */
  lemma RoundTrip(s: seq<Char>)
    ensures Decoded(Encoded(s)).Some?
    ensures Decoded(Encoded(s)) == Some(s) <==> CarryFree(s)
  {
    hide Encoded, Decoded, Quanta, CarryFree;
    QuantaRoundTrip(s);
    DecodedQuanta(Encoded(s));
  }

  lemma {:induction false} QuantaRoundTrip(s: seq<Char>)
    ensures |Encoded(s)| % 4 == 0
    ensures Quanta(Encoded(s)) == s <==> CarryFree(s)
    decreases |s|
  {
    hide CarryFree, EncodeGroup, DecodeLast, DecodeFull;
    EncodedLength(s);
    if |s| <= 3 {
      CarryShort(s);
      if s != [] {
        GroupRoundTrip(s);
        assert |s| == 3 ==> s[..3] == s && Encoded(s) == EncodeGroup(s) + [] == EncodeGroup(s);
      }
    } else {
      var first, rest := s[..3], s[3..];
      EncodedLength(rest);
      QuantaRoundTrip(rest);
      GroupRoundTrip(first);
      CarryShort(first);
      CarrySplit(s);
      LongRoundTrip(s);
      SplitEqual(DecodeFull(EncodeGroup(first)), Quanta(Encoded(rest)), first, rest);
      assert s == first + rest;
    }
  }

  lemma LongRoundTrip(s: seq<Char>)
    requires |s| > 3
    ensures |Encoded(s)| % 4 == 0 && |Encoded(s[3..])| % 4 == 0
    ensures Quanta(Encoded(s)) == DecodeFull(EncodeGroup(s[..3])) + Quanta(Encoded(s[3..]))
  {
    hide EncodeGroup, DecodeFull, DecodeLast, Quanta, Encoded;
    var e := Encoded(s);
    EncodedLength(s);
    EncodedLength(s[3..]);
    EncodedStep(s);
    QuantaStep(e);
    assert e[..4] == EncodeGroup(s[..3]) && e[4..] == Encoded(s[3..]);
  }

  lemma EncodedStep(s: seq<Char>)
    requires |s| >= 3
    ensures Encoded(s) == EncodeGroup(s[..3]) + Encoded(s[3..])
  {
  }

  lemma QuantaOne(t: seq<int>)
    requires |t| == 4
    ensures Quanta(t) == DecodeLast(t)
  {
  }

  lemma QuantaStep(t: seq<int>)
    requires |t| % 4 == 0 && |t| > 4
    ensures Quanta(t) == DecodeFull(t[..4]) + Quanta(t[4..])
  {
  }

  lemma CarryShort(s: seq<Char>)
    requires |s| <= 3
    ensures CarryFree(s) <==> ((|s| > 1 ==> s[1] >= 0) && (|s| > 2 ==> s[2] >= 0))
  {
    assert forall i :: 0 <= i < |s| && i % 3 != 0 ==> i == 1 || i == 2;
    assert 1 % 3 != 0 && 2 % 3 != 0;
  }

  lemma SplitEqual(a: seq<Char>, b: seq<Char>, c: seq<Char>, d: seq<Char>)
    requires |a| == |c|
    ensures a + b == c + d <==> (a == c && b == d)
  {
    if a + b == c + d {
      assert a == (a + b)[..|a|] && b == (a + b)[|a|..];
    }
  }

  lemma CarrySplit(s: seq<Char>)
    requires |s| >= 3
    ensures CarryFree(s) <==> (CarryFree(s[..3]) && CarryFree(s[3..]))
  {
    if CarryFree(s[..3]) && CarryFree(s[3..]) {
      forall i | 0 <= i < |s| && i % 3 != 0 ensures s[i] >= 0 {
        if i >= 3 {
          assert s[3..][i - 3] == s[i];
        } else {
          assert s[..3][i] == s[i];
        }
      }
    }
    if CarryFree(s) {
      forall i | 0 <= i < |s| - 3 && i % 3 != 0 ensures s[3..][i] >= 0 {
        assert s[3..][i] == s[i + 3];
      }
    }
  }

  /** In particular for every string of 7-bit characters. */
  lemma SevenBitRoundTrip(s: seq<Char>)
    requires forall c :: c in s ==> 0 <= c
    ensures Decoded(Encoded(s)) == Some(s)
  {
    hide Encoded, Decoded;
    RoundTrip(s);
    forall i | 0 <= i < |s| && i % 3 != 0 ensures s[i] >= 0 {
      assert s[i] in s;
    }
  }
}
