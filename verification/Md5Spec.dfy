/**
The MD5 message digest in the form of sections 3.1 to 3.5 of RFC 1321: padding, length, and a loop of 64 steps a block.
The words are of any type with the operations of `WordOps`; Md5Words has the 32-bit words of the RFC and wider ones.
*/
module Md5Spec {

  type Byte = bv8

  /** An unsigned integer type: its bitwise operations, addition, shifts by 0..32, numerals, and its exchange with bytes. */
  datatype WordOps<!W> = WordOps(
    and: (W, W) -> W, or: (W, W) -> W, xor: (W, W) -> W, not: W -> W,
    add: (W, W) -> W, shl: (W, bv6) -> W, shr: (W, bv6) -> W,
    numeral: bv32 -> W,
    fromByte: Byte -> W,
    toByte: W -> Byte)

  /** The 64 bytes of a block. */
  type Chunk = b: seq<Byte> | |b| == 64 witness seq(64, _ => 0)

  datatype State<W> = State(a: W, b: W, c: W, d: W)

  function InitialState<W>(v: WordOps<W>): State<W> {
    State(v.numeral(0x67452301), v.numeral(0xefcdab89), v.numeral(0x98badcfe), v.numeral(0x10325476))
  }

  // ---------- One step (section 3.4) ----------

  function F<W>(v: WordOps<W>, x: W, y: W, z: W): W { v.or(v.and(x, y), v.and(v.not(x), z)) }
  function G<W>(v: WordOps<W>, x: W, y: W, z: W): W { v.or(v.and(x, z), v.and(y, v.not(z))) }
  function H<W>(v: WordOps<W>, x: W, y: W, z: W): W { v.xor(v.xor(x, y), z) }
  function I<W>(v: WordOps<W>, x: W, y: W, z: W): W { v.xor(y, v.or(x, v.not(z))) }

  /** The function of the round that step `i` belongs to. */
  function RoundFunction<W>(v: WordOps<W>, i: nat, x: W, y: W, z: W): W {
    if i < 16 then F(v, x, y, z) else if i < 32 then G(v, x, y, z) else if i < 48 then H(v, x, y, z) else I(v, x, y, z)
  }

  /** The word of the block that step `i` uses. */
  function WordIndex(i: nat): (k: nat)
    ensures k < 16
  {
    if i < 16 then i % 16
    else if i < 32 then (1 + 5 * i) % 16
    else if i < 48 then (5 + 3 * i) % 16
    else (7 * i) % 16
  }

  function Shift(i: nat): (s: bv6)
    ensures 4 <= s <= 23
  {
    var j := i % 4;
    if i < 16 then (if j == 0 then 7 else if j == 1 then 12 else if j == 2 then 17 else 22)
    else if i < 32 then (if j == 0 then 5 else if j == 1 then 9 else if j == 2 then 14 else 20)
    else if i < 48 then (if j == 0 then 4 else if j == 1 then 11 else if j == 2 then 16 else 23)
    else (if j == 0 then 6 else if j == 1 then 10 else if j == 2 then 15 else 21)
  }

  function Constant1(j: nat): bv32 {
    if j == 0 then 0xd76aa478 else if j == 1 then 0xe8c7b756 else if j == 2 then 0x242070db else if j == 3 then 0xc1bdceee
    else if j == 4 then 0xf57c0faf else if j == 5 then 0x4787c62a else if j == 6 then 0xa8304613 else if j == 7 then 0xfd469501
    else if j == 8 then 0x698098d8 else if j == 9 then 0x8b44f7af else if j == 10 then 0xffff5bb1 else if j == 11 then 0x895cd7be
    else if j == 12 then 0x6b901122 else if j == 13 then 0xfd987193 else if j == 14 then 0xa679438e else 0x49b40821
  }

  function Constant2(j: nat): bv32 {
    if j == 0 then 0xf61e2562 else if j == 1 then 0xc040b340 else if j == 2 then 0x265e5a51 else if j == 3 then 0xe9b6c7aa
    else if j == 4 then 0xd62f105d else if j == 5 then 0x02441453 else if j == 6 then 0xd8a1e681 else if j == 7 then 0xe7d3fbc8
    else if j == 8 then 0x21e1cde6 else if j == 9 then 0xc33707d6 else if j == 10 then 0xf4d50d87 else if j == 11 then 0x455a14ed
    else if j == 12 then 0xa9e3e905 else if j == 13 then 0xfcefa3f8 else if j == 14 then 0x676f02d9 else 0x8d2a4c8a
  }

  function Constant3(j: nat): bv32 {
    if j == 0 then 0xfffa3942 else if j == 1 then 0x8771f681 else if j == 2 then 0x6d9d6122 else if j == 3 then 0xfde5380c
    else if j == 4 then 0xa4beea44 else if j == 5 then 0x4bdecfa9 else if j == 6 then 0xf6bb4b60 else if j == 7 then 0xbebfbc70
    else if j == 8 then 0x289b7ec6 else if j == 9 then 0xeaa127fa else if j == 10 then 0xd4ef3085 else if j == 11 then 0x04881d05
    else if j == 12 then 0xd9d4d039 else if j == 13 then 0xe6db99e5 else if j == 14 then 0x1fa27cf8 else 0xc4ac5665
  }

  function Constant4(j: nat): bv32 {
    if j == 0 then 0xf4292244 else if j == 1 then 0x432aff97 else if j == 2 then 0xab9423a7 else if j == 3 then 0xfc93a039
    else if j == 4 then 0x655b59c3 else if j == 5 then 0x8f0ccc92 else if j == 6 then 0xffeff47d else if j == 7 then 0x85845dd1
    else if j == 8 then 0x6fa87e4f else if j == 9 then 0xfe2ce6e0 else if j == 10 then 0xa3014314 else if j == 11 then 0x4e0811a1
    else if j == 12 then 0xf7537e82 else if j == 13 then 0xbd3af235 else if j == 14 then 0x2ad7d2bb else 0xeb86d391
  }

  /** The table of 64 constants, taken as given. */
  function Constant(i: nat): bv32 {
    if i < 16 then Constant1(i) else if i < 32 then Constant2(i - 16) else if i < 48 then Constant3(i - 32) else Constant4(i - 48)
  }

  function RotateLeft<W>(v: WordOps<W>, x: W, s: bv6): W
    requires s <= 32
  {
    v.or(v.shl(x, s), v.shr(x, 32 - s))
  }

  /** The new value of the register that step `i` changes. */
  function Mix<W>(v: WordOps<W>, i: nat, a: W, b: W, c: W, d: W, x: W): W {
    var sum := v.add(v.add(v.add(a, RoundFunction(v, i, b, c, d)), x), v.numeral(Constant(i)));
    v.add(b, RotateLeft(v, sum, Shift(i)))
  }

  /** Step `i`: the registers change places, so that the next step again changes the first. */
  function Step<W>(v: WordOps<W>, i: nat, s: State<W>, block: seq<W>): State<W>
    requires |block| == 16
  {
    State(s.d, Mix(v, i, s.a, s.b, s.c, s.d, block[WordIndex(i)]), s.b, s.c)
  }

  /** The first `n` steps. */
  function Steps<W>(v: WordOps<W>, n: nat, s: State<W>, block: seq<W>): State<W>
    requires |block| == 16
  {
    if n == 0 then s else Step(v, n - 1, Steps(v, n - 1, s, block), block)
  }

  function Sum<W>(v: WordOps<W>, s: State<W>, t: State<W>): State<W> {
    State(v.add(s.a, t.a), v.add(s.b, t.b), v.add(s.c, t.c), v.add(s.d, t.d))
  }

  function Block<W>(v: WordOps<W>, s: State<W>, block: seq<W>): State<W>
    requires |block| == 16
  {
    Sum(v, Steps(v, 64, s, block), s)
  }

  // ---------- Words, blocks and padding (sections 3.1, 3.2 and 3.5) ----------

  /** A word from four bytes, the low-order byte first. */
  function WordOf<W>(v: WordOps<W>, b0: Byte, b1: Byte, b2: Byte, b3: Byte): W {
    v.or(v.or(v.or(v.fromByte(b0), v.shl(v.fromByte(b1), 8)), v.shl(v.fromByte(b2), 16)), v.shl(v.fromByte(b3), 24))
  }

  /** The four low bytes of a word, the low-order byte first. */
  function BytesOf<W>(v: WordOps<W>, w: W): (r: seq<Byte>)
    ensures |r| == 4
  {
    [v.toByte(w), v.toByte(v.shr(w, 8)), v.toByte(v.shr(w, 16)), v.toByte(v.shr(w, 24))]
  }

  function WordsOf<W>(v: WordOps<W>, bytes: Chunk): (r: seq<W>)
    ensures |r| == 16
  {
    seq(16, k requires 0 <= k < 16 => WordOf(v, bytes[4 * k], bytes[4 * k + 1], bytes[4 * k + 2], bytes[4 * k + 3]))
  }

  /** `f` over the complete 64-byte blocks of `bytes`, one after the other; a rest of less than 64 bytes is not used. */
  function FoldBlocks<S>(f: (S, Chunk) -> S, s: S, bytes: seq<Byte>): S
    decreases |bytes|
  {
    if |bytes| < 64 then s else FoldBlocks(f, f(s, bytes[..64]), bytes[64..])
  }

  /** The block function of section 3.4. */
  function BlockFunction<W>(v: WordOps<W>): (State<W>, Chunk) -> State<W> {
    (s: State<W>, bytes: Chunk) => Block(v, s, WordsOf(v, bytes))
  }

  /** Byte `k` of a natural number. */
  function ByteOfNat(n: nat, k: nat): Byte {
    if k == 0 then (n % 256) as Byte else ByteOfNat(n / 256, k - 1)
  }

  /** The four low bytes of a number, the low-order byte first. */
  function BytesOfNat(n: nat): (r: seq<Byte>)
    ensures |r| == 4
  {
    [ByteOfNat(n, 0), ByteOfNat(n, 1), ByteOfNat(n, 2), ByteOfNat(n, 3)]
  }

  const TWO_32 := 0x1_0000_0000

  /** The bit count of `n` bytes as two 32-bit words, the low-order word first; it is taken modulo 2^64. */
  function LengthBytes(n: nat): (r: seq<Byte>)
    ensures |r| == 8
  {
    BytesOfNat(8 * n % TWO_32) + BytesOfNat(8 * n / TWO_32 % TWO_32)
  }

  /** How many zero bytes follow the byte 0x80. */
  function ZeroCount(n: nat): (k: nat)
    ensures (n + 1 + k + 8) % 64 == 0
  {
    (55 - n) % 64
  }

  function Zeros(k: nat): (r: seq<Byte>)
    ensures |r| == k && forall j | 0 <= j < k :: r[j] == 0
  {
    seq(k, _ => 0)
  }

  function Pad(message: seq<Byte>): (r: seq<Byte>)
    ensures |r| % 64 == 0
  {
    message + [0x80] + Zeros(ZeroCount(|message|)) + LengthBytes(|message|)
  }

  /** No smaller number of zeros fills the last block. */
  lemma ZerosAreLeast(n: nat, k: nat)
    requires (n + 1 + k + 8) % 64 == 0
    ensures ZeroCount(n) <= k
  {
    assert ZeroCount(n) < 64;
    assert (k - ZeroCount(n)) % 64 == 0;
  }

  function StateBytes<W>(v: WordOps<W>, s: State<W>): (r: seq<Byte>)
    ensures |r| == 16
  {
    BytesOf(v, s.a) + BytesOf(v, s.b) + BytesOf(v, s.c) + BytesOf(v, s.d)
  }

  function Digest<W>(v: WordOps<W>, message: seq<Byte>): (r: seq<Byte>)
    ensures |r| == 16
  {
    StateBytes(v, FoldBlocks(BlockFunction(v), InitialState(v), Pad(message)))
  }

  /** Dividing by 256 again and again. */
  lemma DivideTwice(n: nat)
    ensures n / 256 / 256 == n / 0x1_0000
  {
  }

  lemma DivideThrice(n: nat)
    ensures n / 0x1_0000 / 256 == n / 0x100_0000
  {
  }

  // ---------- Facts about the fold ----------

  lemma {:induction false} FoldConcat<S>(f: (S, Chunk) -> S, s: S, x: seq<Byte>, y: seq<Byte>)
    requires |x| % 64 == 0
    ensures FoldBlocks(f, s, x + y) == FoldBlocks(f, FoldBlocks(f, s, x), y)
    decreases |x|
  {
    if |x| == 0 {
      assert x + y == y;
    } else {
      assert (x + y)[..64] == x[..64] && (x + y)[64..] == x[64..] + y;
      FoldConcat(f, f(s, x[..64]), x[64..], y);
    }
  }

  lemma FoldOne<S>(f: (S, Chunk) -> S, s: S, x: Chunk)
    ensures FoldBlocks(f, s, x) == f(s, x)
  {
    assert x[..64] == x && x[64..] == [];
  }

  lemma FoldNext<S>(f: (S, Chunk) -> S, s: S, x: seq<Byte>, n: nat)
    requires n % 64 == 0 && n + 64 <= |x|
    ensures FoldBlocks(f, s, x[..n + 64]) == f(FoldBlocks(f, s, x[..n]), x[n..n + 64])
  {
    assert x[..n + 64] == x[..n] + x[n..n + 64];
    FoldConcat(f, s, x[..n], x[n..n + 64]);
    FoldOne(f, FoldBlocks(f, s, x[..n]), x[n..n + 64]);
  }

  /** The fold of the first `k` bytes goes on with the bytes `data` that follow them. */
  lemma FoldMore<S>(f: (S, Chunk) -> S, s: S, m: seq<Byte>, k: nat, data: seq<Byte>)
    requires k % 64 == 0 && k + |data| <= |m| && m[k..k + |data|] == data
    ensures FoldBlocks(f, FoldBlocks(f, s, m[..k]), data) == FoldBlocks(f, s, m[..k + |data|])
  {
    assert m[..k + |data|] == m[..k] + data;
    FoldConcat(f, s, m[..k], data);
  }

  /** A map of states that commutes with two block functions commutes with their folds. */
  lemma {:induction false} FoldMaps<S(!new), T>(f: (S, Chunk) -> S, g: (T, Chunk) -> T, h: S -> T, s: S, x: seq<Byte>)
    requires forall s: S, b: Chunk :: h(f(s, b)) == g(h(s), b)
    ensures h(FoldBlocks(f, s, x)) == FoldBlocks(g, h(s), x)
    decreases |x|
  {
    if |x| >= 64 {
      FoldMaps(f, g, h, f(s, x[..64]), x[64..]);
    }
  }
}
