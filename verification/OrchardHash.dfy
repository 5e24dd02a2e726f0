/**
 * How two tree nodes are repacked for the Orchard Merkle hash: 255 bits of each, read ten at a
 * time (sections 5.4.1.3 and 5.4.1.9 of the Zcash Protocol Specification). Points and their
 * addition are left uninterpreted.
 */
module OrchardHash {
  import opened Powers

  type Point(==, !new, 0)

  // ------------------------------------------------------------------ bits of bytes and words

  /** Bit `j` of a byte, least significant first. */
  predicate Bit8(v: bv8, j: nat)
    requires j < 8
  {
    match j
    case 0 => v & 0x1 != 0
    case 1 => v & 0x2 != 0
    case 2 => v & 0x4 != 0
    case 3 => v & 0x8 != 0
    case 4 => v & 0x10 != 0
    case 5 => v & 0x20 != 0
    case 6 => v & 0x40 != 0
    case _ => v & 0x80 != 0
  }

  predicate Bit16(v: bv16, j: nat)
    requires j < 16
  {
    match j
    case 0 => v & 0x1 != 0
    case 1 => v & 0x2 != 0
    case 2 => v & 0x4 != 0
    case 3 => v & 0x8 != 0
    case 4 => v & 0x10 != 0
    case 5 => v & 0x20 != 0
    case 6 => v & 0x40 != 0
    case 7 => v & 0x80 != 0
    case 8 => v & 0x100 != 0
    case 9 => v & 0x200 != 0
    case 10 => v & 0x400 != 0
    case 11 => v & 0x800 != 0
    case 12 => v & 0x1000 != 0
    case 13 => v & 0x2000 != 0
    case 14 => v & 0x4000 != 0
    case _ => v & 0x8000 != 0
  }

  /** The bit operations of the code, one name each, so that proofs can do without their bodies. */
  function LowToTop(b: bv8): bv8 { (b & 1) << 7 }

  function Down(a: bv8, carry: bv8): bv8 { (a >> 1) | carry }

  function Or(a: bv8, b: bv8): bv8 { a | b }

  /** Two adjacent bytes as the little-endian word read at the first of them. */
  function Word(a: bv8, b: bv8): bv16 { (a as bv16) | ((b as bv16) << 8) }

  /** Ten bits of a word, from the given one. */
  function Window(w: bv16, off: nat): bv16
    requires off < 8
  {
    (w >> off) & 0x3FF
  }

  lemma WordLowBit(a: bv8, b: bv8, j: nat)
    requires j < 8
    ensures Bit16(Word(a, b), j) == Bit8(a, j)
  {
  }

  lemma WordHighBit(a: bv8, b: bv8, j: nat)
    requires j < 8
    ensures Bit16(Word(a, b), 8 + j) == Bit8(b, j)
  {
  }

  lemma WordBit(a: bv8, b: bv8, j: nat)
    requires j < 16
    ensures Bit16(Word(a, b), j) == if j < 8 then Bit8(a, j) else Bit8(b, j - 8)
  {
    hide Bit8, Bit16, Word;
    if j < 8 { WordLowBit(a, b, j); } else { WordHighBit(a, b, j - 8); }
  }

  /** Moving a byte one bit down and taking in the low bit of the next. */
  lemma DownBit(a: bv8, b: bv8, j: nat)
    requires j < 8
    ensures Bit8(Down(a, LowToTop(b)), j) == if j < 7 then Bit8(a, j + 1) else Bit8(b, 0)
  {
  }

  lemma LastDownBit(a: bv8, j: nat)
    requires j < 7
    ensures Bit8(Down(a, 0), j) == Bit8(a, j + 1)
  {
  }

  /** Setting the top bit of a byte from the low bit of another. */
  lemma MergedBit(a: bv8, b: bv8, j: nat)
    requires j < 8
    ensures Bit8(Or(a, LowToTop(b)), j) == (Bit8(a, j) || (j == 7 && Bit8(b, 0)))
  {
  }

  lemma Window0(w: bv16, j: nat)
    requires j < 10
    ensures Bit16(Window(w, 0), j) == Bit16(w, 0 + j)
  {
  }

  lemma Window2(w: bv16, j: nat)
    requires j < 10
    ensures Bit16(Window(w, 2), j) == Bit16(w, 2 + j)
  {
  }

  lemma Window4(w: bv16, j: nat)
    requires j < 10
    ensures Bit16(Window(w, 4), j) == Bit16(w, 4 + j)
  {
    hide Window, Bit16;
    if j < 5 { Window4Low(w, j); } else { Window4High(w, j); }
  }

  lemma Window4Low(w: bv16, j: nat)
    requires j < 5
    ensures Bit16(Window(w, 4), j) == Bit16(w, 4 + j)
  {
  }

  lemma Window4High(w: bv16, j: nat)
    requires 5 <= j < 10
    ensures Bit16(Window(w, 4), j) == Bit16(w, 4 + j)
  {
  }

  lemma Window6(w: bv16, j: nat)
    requires j < 10
    ensures Bit16(Window(w, 6), j) == Bit16(w, 6 + j)
  {
    hide Window, Bit16;
    if j < 5 { Window6Low(w, j); } else { Window6High(w, j); }
  }

  lemma Window6Low(w: bv16, j: nat)
    requires j < 5
    ensures Bit16(Window(w, 6), j) == Bit16(w, 6 + j)
  {
  }

  lemma Window6High(w: bv16, j: nat)
    requires 5 <= j < 10
    ensures Bit16(Window(w, 6), j) == Bit16(w, 6 + j)
  {
  }

  /** Ten bits from an offset the loop can reach; sixteen bits are always enough. */
  lemma WindowBit(w: bv16, off: nat, j: nat)
    requires (off == 0 || off == 2 || off == 4 || off == 6) && j < 10
    ensures Bit16(Window(w, off), j) == Bit16(w, off + j)
  {
    hide Window, Bit16;
    if off == 0 { Window0(w, j); }
    else if off == 2 { Window2(w, j); }
    else if off == 4 { Window4(w, j); }
    else { Window6(w, j); }
  }

  lemma WindowFits(w: bv16, off: nat)
    requires off < 8
    ensures TenBits(Window(w, off))
  {
  }

  function B(b: bool): nat { if b then 1 else 0 }

  /** A byte and a word as numbers. */
  function ByteNum(v: bv8): nat { v as nat }

  function WordNum(v: bv16): nat { v as nat }

  predicate TenBits(v: bv16) { v <= 0x3FF }

  lemma ByteValue(v: bv8)
    ensures ByteNum(v) == B(Bit8(v, 0)) + 2 * B(Bit8(v, 1)) + 4 * B(Bit8(v, 2)) + 8 * B(Bit8(v, 3))
                      + 16 * B(Bit8(v, 4)) + 32 * B(Bit8(v, 5)) + 64 * B(Bit8(v, 6)) + 128 * B(Bit8(v, 7))
  {
  }

  lemma TenBitValue(v: bv16)
    requires TenBits(v)
    ensures WordNum(v)
         == B(Bit16(v, 0)) + 2 * B(Bit16(v, 1)) + 4 * B(Bit16(v, 2)) + 8 * B(Bit16(v, 3)) + 16 * B(Bit16(v, 4))
          + 32 * B(Bit16(v, 5)) + 64 * B(Bit16(v, 6)) + 128 * B(Bit16(v, 7))
          + 256 * B(Bit16(v, 8)) + 512 * B(Bit16(v, 9))
  {
  }

  // ------------------------------------------------------------------ bit strings and numbers

  /** The number a bit string stands for, least significant bit first. */
  function Num(bits: seq<bool>): nat {
    if bits == [] then 0 else B(bits[0]) + 2 * Num(bits[1..])
  }

  function Bits(bytes: seq<bv8>): (bits: seq<bool>)
    ensures |bits| == 8 * |bytes|
  {
    seq(8 * |bytes|, i requires 0 <= i < 8 * |bytes| => Bit8(bytes[i / 8], i % 8))
  }

  /** The number a little-endian byte string stands for. */
  function Value(bytes: seq<bv8>): nat {
    if bytes == [] then 0 else ByteNum(bytes[0]) + 256 * Value(bytes[1..])
  }

  lemma {:induction false} NumAppend(a: seq<bool>, b: seq<bool>)
    ensures Num(a + b) == Num(a) + Pow2(|a|) * Num(b)
  {
    if a == [] {
      assert a + b == b;
    } else {
      NumAppend(a[1..], b);
      assert (a + b)[1..] == a[1..] + b;
      assert 2 * (Pow2(|a| - 1) * Num(b)) == Pow2(|a|) * Num(b);
    }
  }

  lemma {:induction false} NumBound(a: seq<bool>)
    ensures Num(a) < Pow2(|a|)
  {
    if a == [] {
    } else {
      NumBound(a[1..]);
    }
  }

  lemma {:induction false} NumInjective(a: seq<bool>, b: seq<bool>)
    requires |a| == |b| && Num(a) == Num(b)
    ensures a == b
  {
    if a == [] {
    } else {
      NumInjective(a[1..], b[1..]);
      assert a == [a[0]] + a[1..] && b == [b[0]] + b[1..];
    }
  }

  lemma Peel(bits: seq<bool>, k: nat)
    requires k < |bits|
    ensures Num(bits[k..]) == B(bits[k]) + 2 * Num(bits[k + 1..])
  {
    assert bits[k..][1..] == bits[k + 1..];
  }

  lemma NumOfEight(bits: seq<bool>)
    requires |bits| == 8
    ensures Num(bits) == B(bits[0]) + 2 * B(bits[1]) + 4 * B(bits[2]) + 8 * B(bits[3])
                       + 16 * B(bits[4]) + 32 * B(bits[5]) + 64 * B(bits[6]) + 128 * B(bits[7])
  {
    Peel(bits, 0); Peel(bits, 1); Peel(bits, 2); Peel(bits, 3);
    Peel(bits, 4); Peel(bits, 5); Peel(bits, 6); Peel(bits, 7);
    assert bits[0..] == bits && bits[8..] == [];
  }

  lemma NumOfTen(bits: seq<bool>)
    requires |bits| == 10
    ensures Num(bits) == B(bits[0]) + 2 * B(bits[1]) + 4 * B(bits[2]) + 8 * B(bits[3])
                       + 16 * B(bits[4]) + 32 * B(bits[5]) + 64 * B(bits[6]) + 128 * B(bits[7])
                       + 256 * B(bits[8]) + 512 * B(bits[9])
  {
    Peel(bits, 0); Peel(bits, 1); Peel(bits, 2); Peel(bits, 3); Peel(bits, 4);
    Peel(bits, 5); Peel(bits, 6); Peel(bits, 7); Peel(bits, 8); Peel(bits, 9);
    assert bits[0..] == bits && bits[10..] == [];
  }

  lemma Pow2OfEight()
    ensures Pow2(8) == 256 && Pow2(10) == 1024
  {
    assert Pow2(4) == 16;
    assert Pow2(8) == 256;
  }

  lemma BitOfBits(bytes: seq<bv8>, byte: nat, j: nat)
    requires byte < |bytes| && j < 8
    ensures Bits(bytes)[8 * byte + j] == Bit8(bytes[byte], j)
  {
    hide Bit8;
    assert (8 * byte + j) / 8 == byte && (8 * byte + j) % 8 == j;
  }

  lemma NumOfByte(v: bv8, bits: seq<bool>)
    requires |bits| == 8 && forall j: nat | j < 8 :: bits[j] == Bit8(v, j)
    ensures Num(bits) == ByteNum(v)
  {
    hide Bit8, Num, ByteNum;
    NumOfEight(bits);
    ByteValue(v);
  }

  lemma FirstByte(bytes: seq<bv8>)
    requires bytes != []
    ensures Num(Bits(bytes)[..8]) == ByteNum(bytes[0])
    ensures Bits(bytes) == Bits(bytes)[..8] + Bits(bytes[1..])
  {
    hide Bit8, Num, ByteNum, Bits;
    forall j: nat | j < 8 ensures Bits(bytes)[..8][j] == Bit8(bytes[0], j) {
      BitOfBits(bytes, 0, j);
    }
    NumOfByte(bytes[0], Bits(bytes)[..8]);
    forall i | 0 <= i < 8 * |bytes[1..]| ensures Bits(bytes[1..])[i] == Bits(bytes)[8 + i] {
      var byte, j := i / 8, i % 8;
      BitOfBits(bytes[1..], byte, j);
      BitOfBits(bytes, byte + 1, j);
      assert i == 8 * byte + j && 8 + i == 8 * (byte + 1) + j;
    }
  }

  lemma {:induction false} NumOfBytes(bytes: seq<bv8>)
    ensures Num(Bits(bytes)) == Value(bytes)
  {
    hide Bit8, Pow2, ByteNum;
    if bytes == [] {
    } else {
      NumOfBytes(bytes[1..]);
      FirstByte(bytes);
      NumAppend(Bits(bytes)[..8], Bits(bytes[1..]));
      Pow2OfEight();
    }
  }

  // ------------------------------------------------------------------ the message that is hashed

  /** 255 bits of each node, the low ones: what the specification hashes. */
  function Message(left: seq<bv8>, right: seq<bv8>): (m: seq<bool>)
    requires |left| == |right| == 32
    ensures |m| == 510
  {
    Bits(left)[..255] + Bits(right)[..255]
  }

  /** What the repacked buffer holds: the bit where the two meet is set if either node has it. */
  function Packed(left: seq<bv8>, right: seq<bv8>): (m: seq<bool>)
    requires |left| == |right| == 32
    ensures |m| == 510
  {
    Bits(left)[..255] + [Bits(left)[255] || Bits(right)[0]] + Bits(right)[1..255]
  }

  /** The k-th ten-bit chunk of a message. */
  function Chunk(m: seq<bool>, k: nat): nat
    requires 10 * k + 10 <= |m|
  {
    Num(m[10 * k..10 * k + 10])
  }

  function Chunks(m: seq<bool>, count: nat): (chunks: seq<nat>)
    requires 10 * count <= |m|
    ensures |chunks| == count
  {
    seq(count, k requires 0 <= k < count => Chunk(m, k))
  }

  /** Absorbing chunks one after the other. */
  function Absorb(step: (Point, nat) -> Point, acc: Point, chunks: seq<nat>): Point {
    if chunks == [] then acc
    else step(Absorb(step, acc, chunks[..|chunks| - 1]), chunks[|chunks| - 1])
  }

  // ------------------------------------------------------------------ the repacking, in place

  /** Byte `i` of the right node once it has been moved one bit down. */
  function ShiftedByte(right: seq<bv8>, i: nat): bv8
    requires |right| == 32 && i < 32
  {
    Down(right[i], if i < 31 then LowToTop(right[i + 1]) else 0)
  }

  /** The two nodes side by side after the repacking. */
  function Buffer(left: seq<bv8>, right: seq<bv8>): (buffer: seq<bv8>)
    requires |left| == |right| == 32
    ensures |buffer| == 64
  {
    left[31 := Or(left[31], LowToTop(right[0]))] + seq(32, i requires 0 <= i < 32 => ShiftedByte(right, i))
  }

  lemma LeftBufferBit(left: seq<bv8>, right: seq<bv8>, byte: nat, j: nat)
    requires |left| == |right| == 32 && byte < 32 && j < 8
    ensures Bit8(Buffer(left, right)[byte], j) == Packed(left, right)[8 * byte + j]
  {
    hide Bit8, Bits, Or, LowToTop, Down;
    BitOfBits(left, byte, j);
    BitOfBits(left, 31, 7);
    BitOfBits(right, 0, 0);
    if byte == 31 { MergedBit(left[31], right[0], j); }
  }

  lemma RightBufferBit(left: seq<bv8>, right: seq<bv8>, byte: nat, j: nat)
    requires |left| == |right| == 32 && byte < 32 && j < 8 && 8 * byte + j < 254
    ensures Bit8(Buffer(left, right)[32 + byte], j) == Packed(left, right)[256 + 8 * byte + j]
  {
    hide Bit8, Bits, Or, LowToTop, Down;
    assert Packed(left, right)[256 + 8 * byte + j] == Bits(right)[8 * byte + j + 1];
    assert Buffer(left, right)[32 + byte] == ShiftedByte(right, byte);
    if j < 7 { BitOfBits(right, byte, j + 1); } else { BitOfBits(right, byte + 1, 0); }
    if byte < 31 { DownBit(right[byte], right[byte + 1], j); } else { LastDownBit(right[byte], j); }
  }

  /** The in-place shift moves every bit to its place in the message. */
  lemma BufferBit(left: seq<bv8>, right: seq<bv8>, i: nat)
    requires |left| == |right| == 32 && i < 510
    ensures Bits(Buffer(left, right))[i] == Packed(left, right)[i]
  {
    hide Bit8, Bits, Buffer, Packed;
    BitOfBits(Buffer(left, right), i / 8, i % 8);
    if i < 256 { LeftBufferBit(left, right, i / 8, i % 8); }
    else { RightBufferBit(left, right, i / 8 - 32, i % 8); }
  }

  /** Two adjacent bytes of a byte string hold its bits in order. */
  lemma WordOfBits(bytes: seq<bv8>, byte: nat, j: nat)
    requires byte + 1 < |bytes| && j < 16
    ensures Bit16(Word(bytes[byte], bytes[byte + 1]), j) == Bits(bytes)[8 * byte + j]
  {
    hide Bit8, Bit16, Word;
    WordBit(bytes[byte], bytes[byte + 1], j);
    if j < 8 {
      assert (8 * byte + j) / 8 == byte && (8 * byte + j) % 8 == j;
    } else {
      assert (8 * byte + j) / 8 == byte + 1 && (8 * byte + j) % 8 == j - 8;
    }
  }

  /** Reading a word at the byte of a chunk's first bit and cutting ten bits out gives the chunk. */
  lemma ChunkAt(buffer: seq<bv8>, m: seq<bool>, k: nat, byte: nat, off: nat)
    requires |m| == 510 && |buffer| == 64 && forall i | 0 <= i < 510 :: Bits(buffer)[i] == m[i]
    requires k < 51 && 8 * byte + off == 10 * k && off < 8
    ensures WordNum(Window(Word(buffer[byte], buffer[byte + 1]), off)) == Chunk(m, k)
  {
    hide Bit16, Word, Window, Bits, Num, WordNum, TenBits;
    var w := Word(buffer[byte], buffer[byte + 1]);
    var chunk := m[10 * k..10 * k + 10];
    forall j: nat | j < 10 ensures Bit16(Window(w, off), j) == chunk[j] {
      WindowBit(w, off, j);
      WordOfBits(buffer, byte, off + j);
    }
    WindowFits(w, off);
    WindowNum(Window(w, off), chunk);
  }

  lemma WindowNum(v: bv16, chunk: seq<bool>)
    requires TenBits(v) && |chunk| == 10 && forall j: nat | j < 10 :: Bit16(v, j) == chunk[j]
    ensures WordNum(v) == Num(chunk)
  {
    hide Bit16, Num, WordNum, TenBits;
    NumOfTen(chunk);
    TenBitValue(v);
  }

  /** The two bytes the loop looks at, from whichever node they are in. */
  method ReadWord(left: array<bv8>, right: array<bv8>, byteOffset: nat) returns (v: bv16)
    requires left.Length == right.Length == 32 && byteOffset < 63
    ensures v == Word((left[..] + right[..])[byteOffset], (left[..] + right[..])[byteOffset + 1])
  {
    hide Word;
    v := if byteOffset < 31 then Word(left[byteOffset], left[byteOffset + 1])
         else if byteOffset == 31 then Word(left[31], right[0])
         else Word(right[byteOffset - 32], right[byteOffset - 31]);
  }

  /** Moves the bits of `right` down by one, the first of them into the top bit of `left`. */
  method Repack(left: array<bv8>, right: array<bv8>)
    requires left.Length == right.Length == 32 && left != right
    modifies left, right
    ensures left[..] + right[..] == Buffer(old(left[..]), old(right[..]))
  {
    hide Or, LowToTop, Down;
    ghost var left0, right0 := left[..], right[..];
    left[31] := Or(left[31], LowToTop(right[0]));
    for i := 0 to 32
      invariant forall k | 0 <= k < i :: right[k] == ShiftedByte(right0, k)
      invariant forall k | i <= k < 32 :: right[k] == right0[k]
      invariant left[..] == left0[31 := Or(left0[31], LowToTop(right0[0]))]
    {
      var carry := if i < 31 then LowToTop(right[i + 1]) else 0;
      right[i] := Down(right[i], carry);
    }
  }

  // ------------------------------------------------------------------ what the chunks stand for

  /** The number with these base-1024 digits, least significant first. */
  function FromDigits(digits: seq<nat>): nat {
    if digits == [] then 0 else digits[0] + 1024 * FromDigits(digits[1..])
  }

  lemma {:induction false} ChunksAreDigits(m: seq<bool>, count: nat)
    requires |m| == 10 * count
    ensures FromDigits(Chunks(m, count)) == Num(m)
    ensures forall d | d in Chunks(m, count) :: d < 1024
    decreases count
  {
    if count > 0 {
      var rest := m[10..];
      ChunksAreDigits(rest, count - 1);
      forall k | 0 <= k < count - 1 ensures Chunks(m, count)[1..][k] == Chunks(rest, count - 1)[k] {
        assert m[10 * (k + 1)..10 * (k + 1) + 10] == rest[10 * k..10 * k + 10];
      }
      assert Chunks(m, count)[1..] == Chunks(rest, count - 1);
      assert m == m[..10] + rest;
      NumAppend(m[..10], rest);
      Pow2OfEight();
    }
    forall d | d in Chunks(m, count) ensures d < 1024 {
      var k :| 0 <= k < count && Chunks(m, count)[k] == d;
      NumBound(m[10 * k..10 * k + 10]);
      Pow2OfEight();
    }
  }

  /** The low 255 bits of a node are its value modulo 2^255; the last bit is the rest. */
  lemma LowBits(bytes: seq<bv8>)
    requires |bytes| == 32
    ensures Value(bytes) == Num(Bits(bytes)[..255]) + Pow2(255) * B(Bits(bytes)[255])
    ensures Value(bytes) % Pow2(255) == Num(Bits(bytes)[..255])
  {
    hide Pow2;
    var bits := Bits(bytes);
    assert bits == bits[..255] + [bits[255]];
    NumAppend(bits[..255], [bits[255]]);
    NumOfBytes(bytes);
    NumBound(bits[..255]);
    assert Num([bits[255]]) == B(bits[255]) by { Peel([bits[255]], 0); }
    LowPart(Value(bytes), Num(bits[..255]), B(bits[255]), Pow2(255));
  }

  lemma LowPart(n: nat, low: nat, high: nat, p: nat)
    requires n == low + p * high && low < p
    ensures n % p == low
  {
    var d := n / p - high;
    assert p * d == low - n % p;
    assert d >= 1 ==> p * d >= p;
    assert d <= -1 ==> p * d + p <= 0;
  }

  /** The packed bits as a number. */
  lemma PackedValue(left: seq<bv8>, right: seq<bv8>)
    requires |left| == |right| == 32
    ensures var l, r := Bits(left), Bits(right);
            Num(Packed(left, right)) == Num(l[..255]) + Pow2(255) * (B(l[255] || r[0]) + 2 * Num(r[1..255]))
    ensures Num(Bits(right)[..255]) == B(Bits(right)[0]) + 2 * Num(Bits(right)[1..255])
  {
    hide Pow2, Bits;
    var l, r := Bits(left), Bits(right);
    var high := [l[255] || r[0]] + r[1..255];
    assert Packed(left, right) == l[..255] + high;
    NumAppend(l[..255], high);
    assert high[1..] == r[1..255];
    assert r[..255][1..] == r[1..255];
  }

  /**
   * The 51 values that are hashed are the base-1024 digits of the left node plus 2^255 times the
   * right node without its top bit; this fails just for a left node with its top bit set, which
   * no field element has, next to an odd right node.
   */
  lemma ChunksSpellBothNodes(left: seq<bv8>, right: seq<bv8>)
    requires |left| == |right| == 32
    ensures var chunks := Chunks(Packed(left, right), 51);
            && (forall d | d in chunks :: d < 1024)
            && (FromDigits(chunks) == Value(left) + Pow2(255) * (Value(right) % Pow2(255))
                <==> !(Bit8(left[31], 7) && Bit8(right[0], 0)))
  {
    hide Pow2, Packed, Chunks, Value;
    ChunksAreDigits(Packed(left, right), 51);
    PackedValue(left, right);
    LowBits(left);
    LowBits(right);
    var l, r, p := Bits(left), Bits(right), Pow2(255);
    assert l[255] == Bit8(left[31], 7) && r[0] == Bit8(right[0], 0);
    var t := 2 * Num(r[1..255]);
    var nl := Num(l[..255]);
    Weigh(p, nl, B(l[255] || r[0]), B(l[255]), B(r[0]), t);
  }

  lemma Weigh(p: nat, n: nat, x: nat, a: nat, b: nat, t: nat)
    requires p > 0
    ensures n + p * (x + t) == n + p * a + p * (b + t) <==> x == a + b
  {
    var d := x - a - b;
    assert n + p * (x + t) - (n + p * a + p * (b + t)) == p * d;
    assert d >= 1 ==> p * d >= p;
    assert d <= -1 ==> p * d + p <= 0;
  }

  predicate AllDigits(values: seq<nat>) { forall d | d in values :: d < 1024 }

  /** `trace` reads off what an accumulator has absorbed, in order. */
  ghost predicate Traces(step: (Point, nat) -> Point, trace: Point -> seq<nat>) {
    forall acc, value :: trace(step(acc, value)) == trace(acc) + [value]
  }

  lemma {:induction false} AbsorbsInOrder(step: (Point, nat) -> Point, trace: Point -> seq<nat>, acc: Point,
                                          chunks: seq<nat>)
    requires Traces(step, trace)
    ensures trace(Absorb(step, acc, chunks)) == trace(acc) + chunks
  {
    if chunks == [] {
    } else {
      var last := |chunks| - 1;
      AbsorbsInOrder(step, trace, acc, chunks[..last]);
      assert chunks == chunks[..last] + [chunks[last]];
    }
  }

  /**
   * The accumulator absorbs the level and then 51 values; for a left node with its top bit clear,
   * these are the base-1024 digits of both nodes, least significant first.
   */
  method NodeCombineInner(Q: Point, step: (Point, nat) -> Point, depth: nat, left0: seq<bv8>, right0: seq<bv8>,
                          ghost trace: Point -> seq<nat>)
    returns (acc: Point)
    requires |left0| == |right0| == 32 && depth < 256
    ensures acc == Absorb(step, step(Q, depth), Chunks(Packed(left0, right0), 51))
    ensures Traces(step, trace) ==>
              && |trace(acc)| == |trace(Q)| + 52 && trace(acc)[..|trace(Q)| + 1] == trace(Q) + [depth]
              && AllDigits(trace(acc)[|trace(Q)| + 1..])
              && (FromDigits(trace(acc)[|trace(Q)| + 1..]) == Value(left0) + Pow2(255) * (Value(right0) % Pow2(255))
                  <==> !(Bit8(left0[31], 7) && Bit8(right0[0], 0)))
  {
    hide Word, Window, Buffer, Packed, Bits, Chunk, WordNum, Pow2, Value, FromDigits, Bit8, Traces;
    acc := step(Q, depth);
    var left := new bv8[32](i requires 0 <= i < 32 => left0[i]);
    var right := new bv8[32](i requires 0 <= i < 32 => right0[i]);
    assert left[..] == left0 && right[..] == right0;
    Repack(left, right);

    ghost var buffer, m := Buffer(left0, right0), Packed(left0, right0);
    forall i | 0 <= i < 510 ensures Bits(buffer)[i] == m[i] { BufferBit(left0, right0, i); }
    var bitOffset, byteOffset := 0, 0;
    for k := 0 to 51
      invariant 8 * byteOffset + bitOffset == 10 * k && 0 <= bitOffset < 8 && byteOffset >= 0
      invariant left[..] + right[..] == buffer
      invariant acc == Absorb(step, step(Q, depth), Chunks(m, k))
    {
      var v := ReadWord(left, right, byteOffset);
      ChunkAt(buffer, m, k, byteOffset, bitOffset);
      v := Window(v, bitOffset);
      assert Chunks(m, k + 1)[..k] == Chunks(m, k);
      acc := step(acc, WordNum(v));
      bitOffset := bitOffset + 10;
      if bitOffset >= 8 {
        byteOffset := byteOffset + bitOffset / 8;
        bitOffset := bitOffset % 8;
      }
    }
    TraceOfNodes(Q, step, depth, left0, right0, trace);
  }

  lemma TraceOfNodes(Q: Point, step: (Point, nat) -> Point, depth: nat, left: seq<bv8>, right: seq<bv8>,
                     trace: Point -> seq<nat>)
    requires |left| == |right| == 32
    ensures var chunks := Chunks(Packed(left, right), 51);
            && |chunks| == 51 && AllDigits(chunks)
            && (FromDigits(chunks) == Value(left) + Pow2(255) * (Value(right) % Pow2(255))
                <==> !(Bit8(left[31], 7) && Bit8(right[0], 0)))
            && (Traces(step, trace) ==>
                  var t := trace(Absorb(step, step(Q, depth), chunks));
                  && |t| == |trace(Q)| + 52 && t[..|trace(Q)| + 1] == trace(Q) + [depth]
                  && t[|trace(Q)| + 1..] == chunks)
  {
    hide Pow2, Packed, Chunks, Value, FromDigits, Bit8;
    ChunksSpellBothNodes(left, right);
    if Traces(step, trace) {
      AbsorbsInOrder(step, trace, step(Q, depth), Chunks(Packed(left, right), 51));
    }
  }

  /** For field elements the packed bits are the 255 low bits of each node. */
  lemma PackedIsMessage(left: seq<bv8>, right: seq<bv8>)
    requires |left| == |right| == 32 && !Bit8(left[31], 7)
    ensures Packed(left, right) == Message(left, right)
  {
    assert Bits(left)[255] == Bit8(left[31], 7);
  }

  /** Field elements are recovered from their chunks: no two pairs of nodes are hashed alike. */
  lemma ChunksAreInjective(left: seq<bv8>, right: seq<bv8>, left': seq<bv8>, right': seq<bv8>)
    requires |left| == |right| == |left'| == |right'| == 32
    requires !Bit8(left[31], 7) && !Bit8(right[31], 7) && !Bit8(left'[31], 7) && !Bit8(right'[31], 7)
    requires Chunks(Packed(left, right), 51) == Chunks(Packed(left', right'), 51)
    ensures left == left' && right == right'
  {
    hide Packed, Chunks;
    var m, m' := Packed(left, right), Packed(left', right');
    ChunksAreDigits(m, 51);
    ChunksAreDigits(m', 51);
    NumInjective(m, m');
    PackedIsMessage(left, right);
    PackedIsMessage(left', right');
    assert m[..255] == Bits(left)[..255] && m[255..] == Bits(right)[..255];
    assert m'[..255] == Bits(left')[..255] && m'[255..] == Bits(right')[..255];
    SameLowBits(left, left');
    SameLowBits(right, right');
  }

  lemma SameLowBits(a: seq<bv8>, b: seq<bv8>)
    requires |a| == |b| == 32 && !Bit8(a[31], 7) && !Bit8(b[31], 7)
    requires Bits(a)[..255] == Bits(b)[..255]
    ensures a == b
  {
    forall i | 0 <= i < 32 ensures a[i] == b[i] {
      forall j: nat | j < 8 ensures Bit8(a[i], j) == Bit8(b[i], j) {
        var k := 8 * i + j;
        assert k / 8 == i && k % 8 == j;
        assert k < 255 ==> Bits(a)[k] == Bits(a)[..255][k] && Bits(b)[k] == Bits(b)[..255][k];
      }
      SameByte(a[i], b[i]);
    }
  }

  lemma SameByte(x: bv8, y: bv8)
    requires forall j: nat | j < 8 :: Bit8(x, j) == Bit8(y, j)
    ensures x == y
  {
    assert Bit8(x, 0) == Bit8(y, 0) && Bit8(x, 1) == Bit8(y, 1) && Bit8(x, 2) == Bit8(y, 2) && Bit8(x, 3) == Bit8(y, 3);
    assert Bit8(x, 4) == Bit8(y, 4) && Bit8(x, 5) == Bit8(y, 5) && Bit8(x, 6) == Bit8(y, 6) && Bit8(x, 7) == Bit8(y, 7);
  }
}
