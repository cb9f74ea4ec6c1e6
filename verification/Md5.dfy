/** MD5 streaming (RFC 1321): buffering, counting, padding and the final digest, for any compression
    function of a state and a block. */
module Md5 {
  import opened Values

  type Byte = x: int | 0 <= x < 256

  const TWO32: nat := 0x1_0000_0000
  const TWO64: nat := 0x1_0000_0000_0000_0000

  type Word = x: int | 0 <= x < 0x1_0000_0000

  datatype State = State(a: Word, b: Word, c: Word, d: Word)

  /** Section 3.3. */
  const INIT := State(0x67452301, 0xefcdab89, 0x98badcfe, 0x10325476)

  type Compression = (State, seq<Byte>) -> State

  // ----- the standard's definition -----

  /** Little-endian bytes of a word. */
  function WordBytes(w: Word): (r: seq<Byte>)
    ensures |r| == 4
  {
    [w % 256, w / 0x100 % 256, w / 0x10000 % 256, w / 0x1000000 % 256]
  }

  /** A word from its little-endian bytes. */
  function FromBytes(b: seq<Byte>): Word
    requires |b| == 4
  {
    b[0] as int + b[1] as int * 0x100 + b[2] as int * 0x10000 + b[3] as int * 0x1000000
  }

  lemma WordRoundTrip(w: Word)
    ensures FromBytes(WordBytes(w)) == w
  {
    var w1, w2 := w / 0x100, w / 0x10000;
    NextByte(w as int);
    NextByte(w1);
    NextByte(w2);
    Quotients(w);
  }

  lemma NextByte(x: int)
    ensures x == 0x100 * (x / 0x100) + x % 0x100
  {
  }

  lemma Quotients(w: Word)
    ensures w / 0x100 / 0x100 == w / 0x10000 && w / 0x10000 / 0x100 == w / 0x1000000
    ensures w / 0x1000000 % 256 == w / 0x1000000
  {
    var w1, w2 := w / 0x100, w / 0x10000;
    Quotient16(w as int, w1 / 0x100, w1 % 0x100 * 0x100 + w % 0x100);
    Quotient24(w as int, w2 / 0x100, w2 % 0x100 * 0x10000 + w % 0x10000);
  }

  lemma Quotient16(x: int, q: int, r: int)
    requires x == 0x10000 * q + r && 0 <= r < 0x10000
    ensures x / 0x10000 == q
  {
  }

  lemma Quotient24(x: int, q: int, r: int)
    requires x == 0x1000000 * q + r && 0 <= r < 0x1000000
    ensures x / 0x1000000 == q
  {
  }

  /** Section 3.2: the low 64 bits of the length in bits, low word first. */
  function LengthBytes(bits: nat): (r: seq<Byte>)
    ensures |r| == 8
  {
    WordBytes(bits % TWO32) + WordBytes(bits / TWO32 % TWO32)
  }

  function Zeros(n: nat): (r: seq<Byte>)
    ensures |r| == n
  {
    seq(n, _ => 0)
  }

  /** Section 3.1: a one bit, then zero bits up to 56 bytes modulo 64. */
  function Padding(size: nat): (r: seq<Byte>)
    ensures 1 <= |r| <= 64 && (size + |r|) % 64 == 56
  {
    [0x80] + Zeros((119 - size % 64) % 64)
  }

  function Padded(message: seq<Byte>): seq<Byte> {
    message + Padding(|message|) + LengthBytes(8 * |message|)
  }

  /** Padding makes whole blocks, with the message in front. */
  lemma PaddedBlocks(message: seq<Byte>)
    ensures |Padded(message)| % 64 == 0 && Padded(message)[..|message|] == message
  {
    hide Padding, LengthBytes;
    var n, pad := |message|, |Padding(|message|)|;
    assert (n + pad) % 64 == 56;
    assert (n + pad + 8) % 64 == 0;
  }

  /** Section 3.4: the state after all complete blocks. */
  function Fold(f: Compression, s: State, data: seq<Byte>): State
    decreases |data|
  {
    if |data| < 64 then s else Fold(f, f(s, data[..64]), data[64..])
  }

  /** Section 3.5. */
  function Output(s: State): seq<Byte> {
    WordBytes(s.a) + WordBytes(s.b) + WordBytes(s.c) + WordBytes(s.d)
  }

  /** The sixteen bytes are the four words of a state, in order. */
  predicate Shows(digest: seq<Byte>, s: State) {
    && |digest| == 16
    && FromBytes(digest[0..4]) == s.a && FromBytes(digest[4..8]) == s.b
    && FromBytes(digest[8..12]) == s.c && FromBytes(digest[12..16]) == s.d
  }

  lemma OutputShows(s: State)
    ensures Shows(Output(s), s)
  {
    hide WordBytes, FromBytes;
    WordRoundTrip(s.a);
    WordRoundTrip(s.b);
    WordRoundTrip(s.c);
    WordRoundTrip(s.d);
    var o := Output(s);
    assert o[0..4] == WordBytes(s.a) && o[4..8] == WordBytes(s.b);
    assert o[8..12] == WordBytes(s.c) && o[12..16] == WordBytes(s.d);
  }

  /** The initial state as bytes, low-order bytes first. */
  lemma InitialBytes()
    ensures Output(INIT) == [0x01, 0x23, 0x45, 0x67, 0x89, 0xab, 0xcd, 0xef, 0xfe, 0xdc, 0xba, 0x98, 0x76, 0x54, 0x32,
                             0x10]
  {
  }

  /** The padding is a one bit and zeros, as few as make 56 bytes modulo 64; then the 64-bit length, low-order bytes
      first. */
  lemma PaddingIs(size: nat, k: nat)
    ensures Padding(size)[0] == 0x80 && (0 < k < |Padding(size)| ==> Padding(size)[k] == 0)
    ensures 0 < k && (size + k) % 64 == 56 ==> |Padding(size)| <= k
    ensures FromBytes(LengthBytes(8 * size)[0..4]) as int + TWO32 * FromBytes(LengthBytes(8 * size)[4..8]) as int
            == 8 * size % TWO64
  {
    hide WordBytes, FromBytes;
    var bits := 8 * size;
    WordRoundTrip(bits % TWO32);
    WordRoundTrip(bits / TWO32 % TWO32);
    assert LengthBytes(bits)[0..4] == WordBytes(bits % TWO32)
           && LengthBytes(bits)[4..8] == WordBytes(bits / TWO32 % TWO32);
    TwoWords(bits);
    if 0 < k && (size + k) % 64 == 56 {
      LeastPadding(size, |Padding(size)|, k);
    }
  }

  lemma TwoWords(x: nat)
    ensures x % TWO32 + TWO32 * (x / TWO32 % TWO32) == x % TWO64
  {
    HighWord(x / TWO32, x % TWO32);
  }

  lemma LeastPadding(size: nat, n: nat, k: nat)
    requires (size + n) % 64 == 56 && (size + k) % 64 == 56 && 1 <= n <= 64 && 0 < k
    ensures n <= k
  {
  }

  function Digest(f: Compression, message: seq<Byte>): seq<Byte> {
    Output(Fold(f, INIT, Padded(message)))
  }

  lemma {:induction false} FoldAppend(f: Compression, s: State, a: seq<Byte>, b: seq<Byte>)
    requires |a| % 64 == 0
    ensures Fold(f, s, a + b) == Fold(f, Fold(f, s, a), b)
    decreases |a|
  {
    if |a| == 0 {
      assert a + b == b;
    } else {
      assert (a + b)[..64] == a[..64] && (a + b)[64..] == a[64..] + b;
      FoldAppend(f, f(s, a[..64]), a[64..], b);
    }
  }

  lemma FoldOne(f: Compression, s: State, block: seq<Byte>)
    requires |block| == 64
    ensures Fold(f, s, block) == f(s, block)
  {
    assert block[..64] == block;
  }

  // ----- the streaming implementation -----

  class MD5 {
    const transform: Compression
    const buffer: array<Byte>
    var count0: Word
    var count1: Word
    var state: State
    var digest: seq<Byte>
    var finalized: bool
    /** What has been passed to `update` since the object was made or last finalized: the complete blocks, and
        the bytes after them; and the state that this started from. */
    ghost var whole: seq<Byte>
    ghost var rest: seq<Byte>
    ghost var start: State

    ghost function Seen(): seq<Byte>
      reads this
    {
      whole + rest
    }

    constructor (transform: Compression)
      ensures Valid() && Seen() == [] && !finalized && fresh(buffer) && this.transform == transform
    {
      this.transform := transform;
      buffer := new Byte[64](_ => 0);
      count0, count1, state, digest, finalized := 0, 0, INIT, [], false;
      whole, rest, start := [], [], INIT;
    }

    /** The count is the number of bits modulo 2^64, the state is that after the complete blocks, and the buffer
        starts with the unprocessed bytes. */
    ghost predicate Valid()
      reads this, buffer
    {
      && Counts(count0, count1, |Seen()|)
      && Buffered() && (!finalized ==> start == INIT)
    }

    /** The two count words after `length` more bytes; the carry is found by comparing. */
    method Count(length: nat)
      requires length < TWO32
      modifies this`count0, this`count1
      ensures count0 as int + TWO32 * count1 as int
              == (old(count0) as int + TWO32 * old(count1) as int + 8 * length) % TWO64
    {
      var added: int := 8 * length % TWO32;
      ghost var total := count0 as int + TWO32 * count1 as int + 8 * length;
      var low := (count0 as int + added) % TWO32;
      var carry := if low < added then 1 else 0;
      var high := (count1 as int + carry + length / 0x2000_0000) % TWO32;
      Carry(count0, count1, length);
      count0, count1 := low, high;
    }

    /** `update` on the data and the length of a string; lengths are 32 bits wide.  Fails when it reads past the
        end of the input: when the position at which a further block would start wraps around. */
    method Update(input: seq<Byte>) returns (ok: bool)
      requires Valid()
      modifies this`count0, this`count1, this`state, this`whole, this`rest, buffer
      ensures ok <==> Fits(old(|Seen()|), Taken(input))
      ensures ok ==> Valid() && Seen() == old(Seen()) + Taken(input)
    {
      hide Fold, Fits, Taken, Counts;
      var index := count0 as int / 8 % 64;
      PositionIs(count0, count1, |whole|, |rest|);
      SameFit(|Seen()|, Taken(input));
      var length := |input| % TWO32;
      Count(length);
      CountSum(old(count0), old(count1), |Seen()|, count0, count1, length);
      ok := Absorb(index, Taken(input));
    }

    /** Fills the buffer up, transforms what is complete and buffers what remains. */
    method Absorb(index: nat, input: seq<Byte>) returns (ok: bool)
      requires Buffered() && index == |rest| && |input| < TWO32
      modifies this`state, this`whole, this`rest, buffer
      ensures ok <==> Fits(index, input)
      ensures ok ==> Buffered() && Seen() == old(Seen()) + input
    {
      hide Fold;
      var firstPart := 64 - index;
      if |input| >= firstPart {
        FillUp(index, input[..firstPart]);
        var i;
        ok, i := TransformChunks(input, firstPart);
        FitsFrom(index, input);
        if ok {
          Rejoined(old(whole), old(rest), input, firstPart);
          CopyIn(0, input[i..]);
          rest := input[i..];
        }
      } else {
        CopyIn(index, input);
        rest := rest + input;
        assert whole + (old(rest) + input) == old(Seen()) + input;
        ok := true;
      }
    }

    /** Completes and transforms the buffered block. */
    method FillUp(index: nat, first: seq<Byte>)
      requires Buffered() && index == |rest| && index + |first| == 64
      modifies this`state, this`whole, this`rest, buffer
      ensures Buffered() && rest == [] && whole == old(whole) + (old(rest) + first)
    {
      hide Fold;
      CopyIn(index, first);
      assert buffer[..] == rest + first;
      Block(whole, buffer[..]);
      state := transform(state, buffer[..]);
      whole, rest := whole + buffer[..], [];
    }

    ghost predicate Buffered()
      reads this, buffer
    {
      && buffer.Length == 64
      && |whole| % 64 == 0 && |rest| < 64
      && state == Fold(transform, start, whole)
      && buffer[..|rest|] == rest
    }

    /** Transforms the complete blocks of the input from a position on; returns where they end.  The loop
        condition is computed in 32 bits. */
    method TransformChunks(input: seq<Byte>, from: nat) returns (ok: bool, i: nat)
      requires from <= |input| < TWO32 && |whole| % 64 == 0 && state == Fold(transform, start, whole)
      modifies this`state, this`whole
      ensures ok <==> FitsAfter(from, |input|)
      ensures ok ==> from <= i <= |input| < i + 64 && whole + input[i..] == old(whole) + input[from..]
      ensures |whole| % 64 == 0 && state == Fold(transform, start, whole)
    {
      hide Fold, FitsAfter, Aligned;
      i := from;
      AlignedSelf(from);
      while (i + 64) % TWO32 <= |input|
        invariant from <= i <= |input| && Aligned(i, from)
        invariant |whole| % 64 == 0 && whole + input[i..] == old(whole) + input[from..]
        invariant state == Fold(transform, start, whole)
        decreases |input| - i
      {
        if i + 64 > |input| {
          Wrapped(from, i, |input|);
          return false, i;
        }
        var block := input[i..i + 64];
        Block(whole, block);
        assert input[i..] == block + input[i + 64..];
        assert whole + block + input[i + 64..] == whole + (block + input[i + 64..]);
        state := transform(state, block);
        whole := whole + block;
        AlignedNext(i, from);
        i := i + 64;
      }
      Unwrapped(from, i, |input|);
      ok := true;
    }

    /** One more complete block. */
    lemma Block(whole: seq<Byte>, block: seq<Byte>)
      requires |whole| % 64 == 0 && |block| == 64
      ensures transform(Fold(transform, start, whole), block) == Fold(transform, start, whole + block)
      ensures |whole + block| % 64 == 0
    {
      hide Fold;
      FoldAppend(transform, start, whole, block);
      FoldOne(transform, Fold(transform, start, whole), block);
    }

    /** `memcpy(&buffer[index], part, |part|)` */
    method CopyIn(index: nat, part: seq<Byte>)
      requires index + |part| <= buffer.Length
      modifies buffer
      ensures buffer[..] == old(buffer[..index]) + part + old(buffer[index + |part|..])
    {
      for k := 0 to |part|
        invariant forall j :: 0 <= j < buffer.Length ==>
          buffer[j] == if index <= j < index + k then part[j - index] else old(buffer[j])
      {
        buffer[index + k] := part[k];
      }
    }

    /** Appends the padding and the length from before it; then there are only complete blocks. */
    method Pad()
      requires Valid() && !finalized
      modifies this`count0, this`count1, this`state, this`whole, this`rest, buffer
      ensures Valid() && state == Fold(transform, INIT, Padded(old(Seen())))
    {
      hide Fold, Padding, LengthBytes, WordBytes;
      ghost var message := Seen();
      var bits := WordBytes(count0) + WordBytes(count1);
      BitsAre(count0, count1, |message|);
      var index := count0 as int / 8 % 64;
      IndexIs(count0, count1, |message|);
      var padLen := if index < 56 then 56 - index else 120 - index;
      PadIs(|message|);
      var _ := Update([0x80] + Zeros(padLen - 1));
      var _ := Update(bits);
      assert Seen() == Padded(message);
      NothingLeft(message, whole, rest);
    }

    /** Pads, appends the length and stores the digest; a second call changes nothing. */
    method Finalize()
      requires Valid()
      modifies this, buffer
      ensures Valid() && finalized
      ensures if old(finalized) then digest == old(digest) && Seen() == old(Seen())
              else digest == Digest(transform, old(Seen()))
      ensures !old(finalized) ==> Shows(digest, Fold(transform, INIT, Padded(old(Seen()))))
    {
      hide Fold, Padded, Output, Shows;
      if finalized {
        return;
      }
      Pad();
      digest := Output(state);
      OutputShows(state);
      for i := 0 to 64
        modifies buffer
      {
        buffer[i] := 0;
      }
      count0, count1, finalized := 0, 0, true;
      whole, rest, start := [], [], state;
      NothingFolded(transform, state);
      assert Seen() == [];
    }
  }

  lemma NothingFolded(f: Compression, s: State)
    ensures Fold(f, s, []) == s
  {
  }

  lemma Rejoined(whole: seq<Byte>, rest: seq<Byte>, input: seq<Byte>, k: nat)
    requires k <= |input|
    ensures whole + (rest + input[..k]) + input[k..] == whole + rest + input
  {
    assert input == input[..k] + input[k..];
  }

  /** The padded message is whole blocks. */
  lemma NothingLeft(message: seq<Byte>, whole: seq<Byte>, rest: seq<Byte>)
    requires whole + rest == Padded(message) && |whole| % 64 == 0 && |rest| < 64
    ensures whole == Padded(message)
  {
    hide Padded;
    PaddedBlocks(message);
    RestIs(|whole|, |rest|);
    assert |whole + rest| == |whole| + |rest|;
  }

  // ----- the 32-bit loop -----

  /** As much of an input as its 32-bit length says. */
  function Taken(input: seq<Byte>): (r: seq<Byte>)
    ensures |r| == |input| % TWO32 && r <= input
    ensures |input| < TWO32 ==> r == input
  {
    input[..|input| % TWO32]
  }

  /** After `seen` bytes, the end of the last complete block of the input leaves room for one more block within 32
      bits.  Every input shorter than 2^32 - 64 bytes does. */
  predicate Fits(seen: nat, input: seq<Byte>) {
    |input| < TWO32 - 64 + (64 - seen % 64) % 64
  }

  /** The same for the positions that the loop runs through. */
  ghost predicate FitsAfter(from: nat, length: nat) {
    forall i: nat :: from <= i <= length && Aligned(i, from) ==> i + 64 < TWO32
  }

  lemma SameFit(seen: nat, input: seq<Byte>)
    ensures Fits(seen, input) == Fits(seen % 64, input)
  {
  }

  /** A whole number of blocks apart. */
  ghost predicate Aligned(i: nat, from: nat) { i % 64 == from % 64 }

  lemma AlignedSelf(i: nat)
    ensures Aligned(i, i)
  {
  }

  lemma AlignedNext(i: nat, from: nat)
    requires Aligned(i, from)
    ensures Aligned(i + 64, from)
  {
  }

  lemma FitsFrom(index: nat, input: seq<Byte>)
    requires index < 64 && 64 - index <= |input| < TWO32
    ensures FitsAfter(64 - index, |input|) <==> Fits(index, input)
  {
    var from, last := 64 - index, TWO32 - 64 + (64 - index) % 64;
    if |input| < last {
      forall i: nat | from <= i <= |input| && Aligned(i, from) ensures i + 64 < TWO32 {
        SameRest(i, last);
      }
    } else {
      assert Aligned(last, from) && from <= last <= |input|;
    }
  }

  lemma SameRest(i: nat, last: nat)
    requires i < last && i % 64 == last % 64
    ensures i + 64 <= last
  {
  }

  lemma Wrapped(from: nat, i: nat, length: nat)
    requires from <= i <= length < TWO32 && Aligned(i, from) && length < i + 64 && (i + 64) % TWO32 <= length
    ensures !FitsAfter(from, length)
  {
    assert i + 64 >= TWO32;
  }

  lemma Unwrapped(from: nat, i: nat, length: nat)
    requires from <= i <= length < TWO32 && Aligned(i, from) && (i + 64) % TWO32 > length
    ensures FitsAfter(from, length) && length < i + 64
  {
    forall k: nat | from <= k <= length && Aligned(k, from) ensures k + 64 < TWO32 {
      if k > i {
        SameRest(i, k);
      }
    }
  }

  // ----- counting -----

  lemma RestIs(n: nat, m: nat)
    requires n % 64 == 0 && m < 64
    ensures (n + m) % 64 == m
  {
  }

  lemma Carry(c0: Word, c1: Word, length: nat)
    requires length < TWO32
    ensures var added := 8 * length % TWO32;
            var low := (c0 as int + added) % TWO32;
            var carry := if low < added then 1 else 0;
            var high := (c1 as int + carry + length / 0x2000_0000) % TWO32;
            low + TWO32 * high == (c0 as int + TWO32 * c1 as int + 8 * length) % TWO64
  {
    var added, over := 8 * length % TWO32, length / 0x2000_0000;
    assert 8 * length == TWO32 * over + added;
    var low := (c0 as int + added) % TWO32;
    var carry := if low < added then 1 else 0;
    CarryBit(c0 as int, added);
    HighWord(c1 as int + carry + over, low);
  }

  lemma CarryBit(c: nat, added: nat)
    requires c < TWO32 && added < TWO32
    ensures var low := (c + added) % TWO32; c + added == low + if low < added then TWO32 else 0
  {
  }

  lemma HighWord(sum: nat, low: nat)
    requires low < TWO32
    ensures (TWO32 * sum + low) % TWO64 == low + TWO32 * (sum % TWO32)
  {
    var q, high := sum / TWO32, sum % TWO32;
    assert TWO32 * sum + low == TWO64 * q + (TWO32 * high + low);
  }

  /** The count words stand for the number of bits modulo 2^64. */
  ghost predicate Counts(c0: Word, c1: Word, n: nat) {
    c0 as int + TWO32 * c1 as int == 8 * n % TWO64
  }

  lemma CountSum(c0: Word, c1: Word, n: nat, d0: Word, d1: Word, m: nat)
    requires Counts(c0, c1, n)
    requires d0 as int + TWO32 * d1 as int == (c0 as int + TWO32 * c1 as int + 8 * m) % TWO64
    ensures Counts(d0, d1, n + m)
  {
    var k := 8 * n / TWO64;
    assert 8 * n == TWO64 * k + 8 * n % TWO64;
    assert 8 * (n + m) == TWO64 * k + (8 * n % TWO64 + 8 * m);
  }

  lemma IndexIs(c0: Word, c1: Word, n: nat)
    requires Counts(c0, c1, n)
    ensures c0 as int / 8 % 64 == n % 64
  {
    var k := 8 * n / TWO64;
    var q := n - 0x2000_0000_0000_0000 * k - 0x2000_0000 * c1 as int;
    assert c0 as int == 8 * q;
    Sixty4(n, 0x80_0000_0000_0000 * k + 0x80_0000 * c1 as int, q);
  }

  /** The bytes buffered before. */
  lemma PositionIs(c0: Word, c1: Word, n: nat, m: nat)
    requires n % 64 == 0 && m < 64 && Counts(c0, c1, n + m)
    ensures c0 as int / 8 % 64 == m == (n + m) % 64
  {
    IndexIs(c0, c1, n + m);
    RestIs(n, m);
  }

  lemma Sixty4(n: int, a: int, q: int)
    requires n == 64 * a + q
    ensures q % 64 == n % 64
  {
  }

  lemma BitsAre(c0: Word, c1: Word, n: nat)
    requires Counts(c0, c1, n)
    ensures WordBytes(c0) + WordBytes(c1) == LengthBytes(8 * n)
  {
    hide WordBytes;
    var k := 8 * n / TWO64;
    var high := 0x1_0000_0000 * k + c1 as int;
    assert 8 * n == 0x1_0000_0000 * high + c0 as int;
    Words(8 * n, high, c0, k, c1);
  }

  lemma Words(x: nat, high: nat, c0: Word, k: nat, c1: Word)
    requires x == 0x1_0000_0000 * high + c0 as int && high == 0x1_0000_0000 * k + c1 as int
    ensures x % TWO32 == c0 && x / TWO32 == high && high % TWO32 == c1
  {
  }

  lemma PadIs(n: nat)
    ensures var index := n % 64;
            var padLen := if index < 56 then 56 - index else 120 - index;
            [0x80] + Zeros(padLen - 1) == Padding(n)
  {
  }

  // ----- any split of the message -----

  /** What is taken of each chunk, one after the other. */
  function Concat(chunks: seq<seq<Byte>>): seq<Byte> {
    if chunks == [] then [] else Concat(chunks[..|chunks| - 1]) + Taken(chunks[|chunks| - 1])
  }

  /** Each chunk fits after those before it. */
  predicate AllFit(chunks: seq<seq<Byte>>) {
    chunks != [] ==>
      && AllFit(chunks[..|chunks| - 1])
      && Fits(|Concat(chunks[..|chunks| - 1])|, Taken(chunks[|chunks| - 1]))
  }

  lemma {:induction false} FitPrefix(chunks: seq<seq<Byte>>, n: nat)
    requires AllFit(chunks) && n <= |chunks|
    ensures AllFit(chunks[..n])
    decreases |chunks|
  {
    if n == |chunks| {
      assert chunks[..n] == chunks;
    } else {
      FitPrefix(chunks[..|chunks| - 1], n);
      assert chunks[..|chunks| - 1][..n] == chunks[..n];
    }
  }

  /** However a message is split into updates, the digest is that of the whole message; None when an update reads
      past its input. */
  method DigestOf(transform: Compression, chunks: seq<seq<Byte>>) returns (digest: Option<seq<Byte>>)
    ensures digest == if AllFit(chunks) then Some(Digest(transform, Concat(chunks))) else None
    ensures AllFit(chunks) ==> Shows(digest.value, Fold(transform, INIT, Padded(Concat(chunks))))
  {
    var m := new MD5(transform);
    for i := 0 to |chunks|
      invariant m.Valid() && !m.finalized && m.Seen() == Concat(chunks[..i]) && AllFit(chunks[..i])
      invariant m.transform == transform && fresh(m) && fresh(m.buffer)
    {
      assert chunks[..i + 1][..i] == chunks[..i];
      var ok := m.Update(chunks[i]);
      if !ok {
        if AllFit(chunks) {
          FitPrefix(chunks, i + 1);
          assert false;
        }
        return None;
      }
    }
    assert chunks[..|chunks|] == chunks;
    m.Finalize();
    digest := Some(m.digest);
  }

  /** Chunks of less than 2^32 - 64 bytes are taken whole and always fit. */
  lemma {:induction false} ShortChunks(chunks: seq<seq<Byte>>)
    requires forall i :: 0 <= i < |chunks| ==> |chunks[i]| < TWO32 - 64
    ensures AllFit(chunks) && forall i :: 0 <= i < |chunks| ==> Taken(chunks[i]) == chunks[i]
  {
    if chunks != [] {
      ShortChunks(chunks[..|chunks| - 1]);
    }
  }
}
