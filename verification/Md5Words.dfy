/**
Unsigned words of any width of 32 bits or more: MD5_u32plus may be any of them. The words of `k` bits are numbers of which
only the low `k` bits are looked at; those of RFC 1321 have 32.
*/
module Md5Words {
  import opened Common
  import opened Md5Spec
  import opened Md5

  function Div(x: nat, m: nat): nat
    requires m > 0
  {
    x / m
  }

  function Bit(b: bool): nat { if b then 1 else 0 }

  /** `op` on each of the low `k` bits. */
  function Bitwise(k: nat, op: (bool, bool) -> bool, x: nat, y: nat): nat {
    if k == 0 then 0 else 2 * Bitwise(k - 1, op, x / 2, y / 2) + Bit(op(x % 2 == 1, y % 2 == 1))
  }

  function And(k: nat, x: nat, y: nat): nat { Bitwise(k, (a, b) => a && b, x, y) }
  function Or(k: nat, x: nat, y: nat): nat { Bitwise(k, (a, b) => a || b, x, y) }
  function Xor(k: nat, x: nat, y: nat): nat { Bitwise(k, (a, b) => a != b, x, y) }
  function Not(k: nat, x: nat): nat { Bitwise(k, (a, b) => !a, x, 0) }
  function Add(k: nat, x: nat, y: nat): nat { Plus(x, y, Pow2(k)) }
  function Shl(k: nat, x: nat, s: bv6): nat { x * Pow2(s as nat) % Pow2(k) }
  function Shr(k: nat, x: nat, s: bv6): nat { Div(x % Pow2(k), Pow2(s as nat)) }

  function LowByte(x: nat): Byte { (x % 256) as bv8 }

  /** The unsigned words of `k` bits. */
  function Words(k: nat): WordOps<nat> {
    WordOps(
      (x, y) => And(k, x, y), (x, y) => Or(k, x, y), (x, y) => Xor(k, x, y), x => Not(k, x), (x, y) => Add(k, x, y),
      (x, s) => Shl(k, x, s), (x, s) => Shr(k, x, s),
      n => n as nat, b => b as nat, x => LowByte(x))
  }

  // ---------- Arithmetic ----------

  lemma ModAdd(x: nat, y: nat, m: nat)
    requires m > 0
    ensures (x % m + y) % m == (x + y) % m
  {
    var q := x / m;
    assert x + y == (x % m + y) + m * q;
    ModMultiple(x % m + y, q, m);
  }

  lemma ModMultiple(x: nat, q: nat, m: nat)
    requires m > 0
    ensures (x + m * q) % m == x % m
  {
    var r, p := x % m, x / m;
    assert x + m * q == m * (p + q) + r;
    DivModUnique(x + m * q, p + q, r, m);
  }

  lemma DivModUnique(x: nat, q: int, r: nat, m: nat)
    requires m > 0 && x == m * q + r && r < m
    ensures x / m == q && x % m == r
  {
    var q1, r1 := x / m, x % m;
    assert m * (q1 - q) == r - r1;
    assert q1 - q >= 1 ==> m * (q1 - q) >= m;
    assert q1 - q <= -1 ==> m * (q1 - q) <= m * -1;
  }

  lemma {:induction false} PowSum(j: nat, i: nat)
    ensures Pow2(j + i) == Pow2(j) * Pow2(i)
  {
    if j > 0 {
      PowSum(j - 1, i);
      assert Pow2(j + i) == 2 * Pow2(j - 1 + i);
    }
  }

  lemma ModOfMod(x: nat, n: nat, c: nat)
    requires n > 0 && c > 0
    ensures n * c > 0 && x % (n * c) % n == x % n
  {
    var m := n * c;
    var q, r := x / m, x % m;
    assert x == m * q + r;
    assert m * q == n * (c * q);
    ModMultiple(r, c * q, n);
  }

  /** Taking more bits first does not change the low `j`. */
  lemma ModMod(x: nat, k: nat, j: nat)
    requires j <= k
    ensures x % Pow2(k) % Pow2(j) == x % Pow2(j)
  {
    PowSum(j, k - j);
    ModOfMod(x, Pow2(j), Pow2(k - j));
  }

  lemma HalfMod(x: nat, j: nat)
    requires j > 0
    ensures x % Pow2(j) == 2 * (x / 2 % Pow2(j - 1)) + x % 2
    ensures x % Pow2(j) / 2 == x / 2 % Pow2(j - 1) && x % Pow2(j) % 2 == x % 2
  {
    var m := Pow2(j - 1);
    var q, r := x / 2 / m, x / 2 % m;
    assert x == 2 * (m * q + r) + x % 2;
    assert x == (2 * m) * q + (2 * r + x % 2);
    DivModUnique(x, q, 2 * r + x % 2, 2 * m);
  }

  // ---------- The laws of 32-bit words ----------

  lemma {:induction false} ChoiceF(k: nat, x: nat, y: nat, z: nat)
    ensures Xor(k, z, And(k, x, Xor(k, y, z))) == Or(k, And(k, x, y), And(k, Not(k, x), z))
  {
    if k > 0 {
      ChoiceF(k - 1, x / 2, y / 2, z / 2);
    }
  }

  lemma {:induction false} ChoiceG(k: nat, x: nat, y: nat, z: nat)
    ensures Xor(k, y, And(k, z, Xor(k, x, y))) == Or(k, And(k, x, z), And(k, y, Not(k, z)))
  {
    if k > 0 {
      ChoiceG(k - 1, x / 2, y / 2, z / 2);
    }
  }

  lemma {:induction false} XorAssoc(k: nat, x: nat, y: nat, z: nat)
    ensures Xor(k, x, Xor(k, y, z)) == Xor(k, Xor(k, x, y), z)
  {
    if k > 0 {
      XorAssoc(k - 1, x / 2, y / 2, z / 2);
    }
  }

  function Plus(x: nat, y: nat, m: nat): nat
    requires m > 0
  {
    (x + y) % m
  }

  lemma PlusLeft(x: nat, y: nat, z: nat, m: nat)
    requires m > 0
    ensures Plus(Plus(x, y, m), z, m) == (x + y + z) % m
  {
    ModAdd(x + y, z, m);
  }

  lemma PlusRight(z: nat, s: nat, r: nat, m: nat)
    requires m > 0 && r == s % m
    ensures Plus(z, r, m) == (s + z) % m
  {
    ModAdd(s, z, m);
  }

  lemma PlusAssoc(a: nat, f: nat, x: nat, t: nat, m: nat)
    requires m > 0
    ensures Plus(a, Plus(Plus(f, x, m), t, m), m) == Plus(Plus(Plus(a, f, m), x, m), t, m)
  {
    PlusLeft(f, x, t, m);
    PlusRight(a, f + x + t, Plus(Plus(f, x, m), t, m), m);
    PlusLeft(a, f, x, m);
    PlusRight(t, a + f + x, Plus(Plus(a, f, m), x, m), m);
    PlusSwap(t, Plus(Plus(a, f, m), x, m), m);
  }

  lemma PlusSwap(x: nat, y: nat, m: nat)
    requires m > 0
    ensures Plus(x, y, m) == Plus(y, x, m)
  {
  }

  lemma AddAssoc(k: nat, a: nat, f: nat, x: nat, t: nat)
    ensures Add(k, a, Add(k, Add(k, f, x), t)) == Add(k, Add(k, Add(k, a, f), x), t)
  {
    PlusAssoc(a, f, x, t, Pow2(k));
  }

  lemma LawsHold(k: nat)
    ensures Laws(Words(k))
  {
    var v := Words(k);
    forall x, y, z ensures FastF(v, x, y, z) == F(v, x, y, z) { ChoiceF(k, x, y, z); }
    forall x, y, z ensures FastG(v, x, y, z) == G(v, x, y, z) { ChoiceG(k, x, y, z); }
    forall x, y, z ensures FastH2(v, x, y, z) == H(v, x, y, z) { XorAssoc(k, x, y, z); }
    forall a, f, x, t ensures FastSum(v, a, f, x, t) == RfcSum(v, a, f, x, t) { AddAssoc(k, a, f, x, t); }
  }

  // ---------- Wider words keep the operations in their low bits ----------

  lemma {:induction false} LowBitwise(k: nat, j: nat, op: (bool, bool) -> bool, x: nat, y: nat)
    requires j <= k
    ensures Bitwise(k, op, x, y) % Pow2(j) == Bitwise(j, op, x % Pow2(j), y % Pow2(j))
  {
    if j > 0 {
      HalfMod(x, j);
      HalfMod(y, j);
      HalfMod(Bitwise(k, op, x, y), j);
      LowBitwise(k - 1, j - 1, op, x / 2, y / 2);
    }
  }

  lemma LowAdd(k: nat, j: nat, x: nat, y: nat)
    requires j <= k
    ensures Add(k, x, y) % Pow2(j) == Add(j, x % Pow2(j), y % Pow2(j))
  {
    ModMod(x + y, k, j);
    ModAdd(x, y, Pow2(j));
    ModAdd(y, x % Pow2(j), Pow2(j));
  }

  lemma ModMul(x: nat, p: nat, m: nat)
    requires m > 0
    ensures x * p % m == (x % m) * p % m
  {
    var q, r := x / m, x % m;
    assert x == m * q + r;
    assert x * p == r * p + m * (q * p);
    ModMultiple(r * p, q * p, m);
  }

  lemma LowShl(k: nat, j: nat, x: nat, s: bv6)
    requires j <= k
    ensures Shl(k, x, s) % Pow2(j) == Shl(j, x % Pow2(j), s)
  {
    ModMod(x * Pow2(s as nat), k, j);
    ModMul(x, Pow2(s as nat), Pow2(j));
  }

  /** Masking with the low `j` bits. */
  lemma {:induction false} MaskIs(k: nat, j: nat, x: nat)
    requires j <= k
    ensures And(k, x, Pow2(j) - 1) == x % Pow2(j)
  {
    if j > 0 {
      HalfMod(x, j);
      assert (Pow2(j) - 1) / 2 == Pow2(j - 1) - 1 && (Pow2(j) - 1) % 2 == 1;
      MaskIs(k - 1, j - 1, x / 2);
    } else {
      AndZero(k, x);
    }
  }

  lemma {:induction false} AndZero(k: nat, x: nat)
    ensures And(k, x, 0) == 0
  {
    if k > 0 {
      AndZero(k - 1, x / 2);
    }
  }

  lemma MaskOf(k: nat, x: nat)
    requires k >= 32
    ensures And(k, x, 0xffff_ffff) == x % Pow2(32)
  {
    MaskIs(k, 32, x);
    Values();
  }

  lemma Values()
    ensures Pow2(8) == 0x100 && Pow2(32) == 0x1_0000_0000
  {
    assert Pow2(4) == 0x10;
    PowSum(4, 4);
    PowSum(8, 8);
    assert Pow2(16) == 0x1_0000;
    PowSum(16, 16);
  }

  lemma LowShr(k: nat, x: nat, s: bv6)
    requires k >= 32
    ensures Shr(k, And(k, x, 0xffff_ffff), s) % Pow2(32) == Shr(32, x % Pow2(32), s)
  {
    MaskOf(k, x);
    var r := x % Pow2(32);
    ModMod(x, 32, 32);
    PowSum(32, k - 32);
    Small(r, Pow2(32), Pow2(k - 32));
    DivSmall(r, Pow2(s as nat), Pow2(32));
  }

  lemma Small(r: nat, m: nat, c: nat)
    requires r < m && c > 0
    ensures m * c > 0 && r % (m * c) == r
  {
    assert m * c >= m;
  }

  lemma DivSmall(r: nat, p: nat, m: nat)
    requires p > 0 && r < m
    ensures Div(r, p) % m == Div(r, p)
  {
    DivLeast(r, p);
    DivModUnique(Div(r, p), 0, Div(r, p), m);
  }

  lemma DivLeast(r: nat, p: nat)
    requires p > 0
    ensures Div(r, p) <= r
  {
    MulLeast(p, r / p);
  }

  lemma MulLeast(p: nat, q: nat)
    requires p > 0
    ensures q <= p * q
  {
    assert p * q == q + (p - 1) * q;
  }

  lemma ByteOfLow(x: nat)
    ensures x % 256 == x % Pow2(32) % 256
  {
    ModMod(x, 32, 8);
    Values();
  }

  /** A byte below the low 32 bits can be shifted down in either width. */
  lemma ByteOfShr(k: nat, x: nat, s: bv6)
    requires k >= 32 && s <= 24
    ensures Shr(k, x, s) % 256 == Shr(32, x % Pow2(32), s) % 256
  {
    ByteAt(x, k, s as nat);
    ByteAt(x % Pow2(32), 32, s as nat);
    ModMod(x, 32, 8 + s as nat);
  }

  /** A byte, from the number and from the bits up to its end. */
  lemma ByteAt(x: nat, k: nat, s: nat)
    requires s + 8 <= k
    ensures Div(x % Pow2(k), Pow2(s)) % 256 == Div(x % Pow2(8 + s), Pow2(s))
  {
    PowSum(8, s);
    Values();
    ModMod(x, k, 8 + s);
    DivMod(x % Pow2(k), Pow2(s), 256);
  }

  lemma DivMod(x: nat, p: nat, n: nat)
    requires p > 0 && n > 0
    ensures n * p > 0 && Div(x, p) % n == Div(x % (n * p), p)
  {
    var m := n * p;
    var q, r := x / m, x % m;
    assert x == p * (n * q) + r;
    var d, e := r / p, r % p;
    assert x == p * (n * q + d) + e;
    DivModUnique(x, n * q + d, e, p);
    assert p * d <= r < p * n;
    assert d < n;
    DivModUnique(n * q + d, q, d, n);
  }

  function Low32(x: nat): nat { x % Pow2(32) }

  lemma BitsKeep(k: nat, x: nat, y: nat)
    requires k >= 32
    ensures Low32(And(k, x, y)) == And(32, Low32(x), Low32(y)) && Low32(Or(k, x, y)) == Or(32, Low32(x), Low32(y))
    ensures Low32(Xor(k, x, y)) == Xor(32, Low32(x), Low32(y)) && Low32(Not(k, x)) == Not(32, Low32(x))
  {
    LowBitwise(k, 32, (a, b) => a && b, x, y);
    LowBitwise(k, 32, (a, b) => a || b, x, y);
    LowBitwise(k, 32, (a, b) => a != b, x, y);
    LowBitwise(k, 32, (a, b) => !a, x, 0);
  }

  lemma SumsKeep(k: nat, x: nat, y: nat, s: bv6)
    requires k >= 32 && s <= 32
    ensures Low32(Add(k, x, y)) == Add(32, Low32(x), Low32(y)) && Low32(Shl(k, x, s)) == Shl(32, Low32(x), s)
    ensures Low32(Shr(k, And(k, x, 0xffff_ffff), s)) == Shr(32, Low32(x), s)
  {
    LowAdd(k, 32, x, y);
    LowShl(k, 32, x, s);
    LowShr(k, x, s);
  }

  lemma BytesKeep(k: nat, x: nat, s: bv6)
    requires k >= 32 && s <= 24
    ensures x % 256 == Low32(x) % 256 && Shr(k, x, s) % 256 == Shr(32, Low32(x), s) % 256
  {
    ByteOfLow(x);
    ByteOfShr(k, x, s);
  }

  lemma NumeralsKeep(n: nat)
    requires n < 0x1_0000_0000
    ensures Low32(n) == n
  {
    Values();
  }

  /** Theorem: words of any width of 32 bits or more keep the operations of 32-bit words in their low 32 bits. */
  lemma WordsKeep(k: nat)
    requires k >= 32
    ensures Keeps(Words(k), Words(32), x => Low32(x))
  {
    BitsOfWords(k);
    SumsOfWords(k);
    BytesOfWords(k);
  }

  lemma BitsOfWords(k: nat)
    requires k >= 32
    ensures KeepsBits(Words(k), Words(32), x => Low32(x))
  {
    var w, v, low := Words(k), Words(32), (x: nat) => Low32(x);
    forall x, y
      ensures low(w.and(x, y)) == v.and(low(x), low(y)) && low(w.or(x, y)) == v.or(low(x), low(y))
      ensures low(w.xor(x, y)) == v.xor(low(x), low(y))
    {
      BitsKeep(k, x, y);
    }
    forall x ensures low(w.not(x)) == v.not(low(x)) { BitsKeep(k, x, x); }
  }

  lemma SumsOfWords(k: nat)
    requires k >= 32
    ensures KeepsSums(Words(k), Words(32), x => Low32(x))
  {
    var w, v, low := Words(k), Words(32), (x: nat) => Low32(x);
    forall x, y ensures low(w.add(x, y)) == v.add(low(x), low(y)) { SumsKeep(k, x, y, 0); }
    forall x, s: bv6 | s <= 32
      ensures low(w.shl(x, s)) == v.shl(low(x), s)
      ensures low(w.shr(w.and(x, w.numeral(0xffff_ffff)), s)) == v.shr(low(x), s)
    {
      SumsKeep(k, x, x, s);
    }
  }

  lemma BytesOfWords(k: nat)
    requires k >= 32
    ensures KeepsBytes(Words(k), Words(32), x => Low32(x))
  {
    var w, v, low := Words(k), Words(32), (x: nat) => Low32(x);
    forall x ensures w.toByte(x) == v.toByte(low(x)) { BytesKeep(k, x, 0); }
    forall x, s: bv6 | s <= 24 ensures w.toByte(w.shr(x, s)) == v.toByte(v.shr(low(x), s)) { BytesKeep(k, x, s); }
    forall n: bv32 ensures low(w.numeral(n)) == v.numeral(n) { NumeralsKeep(n as nat); }
    forall b ensures low(w.fromByte(b)) == v.fromByte(b) { NumeralsKeep(b as nat); }
  }

  /** Theorem: with words of any width of 32 bits or more the program computes the digest of RFC 1321. */
  lemma DigestIsRfc(k: nat, message: seq<Byte>)
    requires k >= 32
    ensures FastDigest(Words(k), message) == Digest(Words(32), message)
  {
    LawsHold(32);
    WordsKeep(k);
    DigestKept(Words(k), Words(32), x => Low32(x), message);
  }

  /** Theorem: however a message is cut into pieces and whatever the width of the words, the result is its digest. */
  method Hash(k: nat, pieces: seq<seq<Byte>>) returns (result: array<Byte>)
    requires k >= 32
    ensures fresh(result) && result[..] == Digest(Words(32), Joined(pieces))
  {
    PowSum(32, k - 32);
    Values();
    Multiple(Pow2(k - 32));
    result := HashPieces(Words(k), Pow2(k), pieces);
    DigestIsRfc(k, Joined(pieces));
  }

  lemma Multiple(c: nat)
    ensures 0x1_0000_0000 * c % 0x1_0000_0000 == 0
  {
  }

  // ---------- What the words are ----------

  /** Bit `j` of a number. */
  predicate BitAt(x: nat, j: nat) { Div(x, Pow2(j)) % 2 == 1 }

  lemma BitOfHalf(x: nat, j: nat)
    requires j > 0
    ensures BitAt(x, j) == BitAt(x / 2, j - 1)
  {
    var m := Pow2(j - 1);
    var q, r := x / 2 / m, x / 2 % m;
    assert x == 2 * (m * q + r) + x % 2;
    assert x == (2 * m) * q + (2 * r + x % 2);
    DivModUnique(x, q, 2 * r + x % 2, 2 * m);
  }

  /** The lowest bit of a result, and the others. */
  lemma BitwiseHalf(k: nat, op: (bool, bool) -> bool, x: nat, y: nat)
    requires k > 0
    ensures BitAt(Bitwise(k, op, x, y), 0) == op(BitAt(x, 0), BitAt(y, 0))
    ensures Bitwise(k, op, x, y) / 2 == Bitwise(k - 1, op, x / 2, y / 2)
  {
  }

  lemma {:induction false} BitwiseAt(k: nat, op: (bool, bool) -> bool, x: nat, y: nat, j: nat)
    requires j < k
    ensures BitAt(Bitwise(k, op, x, y), j) == op(BitAt(x, j), BitAt(y, j))
  {
    BitwiseHalf(k, op, x, y);
    if j > 0 {
      BitOfHalf(x, j);
      BitOfHalf(y, j);
      BitOfHalf(Bitwise(k, op, x, y), j);
      BitwiseAt(k - 1, op, x / 2, y / 2, j - 1);
    }
  }

  lemma {:induction false} BitwiseFits(k: nat, op: (bool, bool) -> bool, x: nat, y: nat)
    ensures Bitwise(k, op, x, y) < Pow2(k)
  {
    if k > 0 {
      BitwiseFits(k - 1, op, x / 2, y / 2);
    }
  }

  /** Theorem: the operations of `k`-bit words, bit by bit. */
  lemma BitsOfOps(k: nat, x: nat, y: nat, j: nat)
    requires j < k
    ensures var v := Words(k);
      && (BitAt(v.and(x, y), j) <==> BitAt(x, j) && BitAt(y, j)) && (BitAt(v.or(x, y), j) <==> BitAt(x, j) || BitAt(y, j))
      && (BitAt(v.xor(x, y), j) <==> BitAt(x, j) != BitAt(y, j)) && (BitAt(v.not(x), j) <==> !BitAt(x, j))
    ensures var v := Words(k);
      v.and(x, y) < Pow2(k) && v.or(x, y) < Pow2(k) && v.xor(x, y) < Pow2(k) && v.not(x) < Pow2(k)
  {
    BitwiseAt(k, (a, b) => a && b, x, y, j);
    BitwiseAt(k, (a, b) => a || b, x, y, j);
    BitwiseAt(k, (a, b) => a != b, x, y, j);
    BitwiseAt(k, (a, b) => !a, x, 0, j);
    BitwiseFits(k, (a, b) => a && b, x, y);
    BitwiseFits(k, (a, b) => a || b, x, y);
    BitwiseFits(k, (a, b) => a != b, x, y);
    BitwiseFits(k, (a, b) => !a, x, 0);
  }

  lemma {:induction false} OrOfNothing(k: nat, y: nat)
    requires y < Pow2(k)
    ensures Or(k, 0, y) == y
  {
    if k > 0 {
      OrOfNothing(k - 1, y / 2);
    }
  }

  /** Numbers whose bits do not overlap are added. */
  lemma {:induction false} OrAdds(k: nat, x: nat, j: nat, q: nat)
    requires x < Pow2(j) && x < Pow2(k) && Pow2(j) * q < Pow2(k)
    ensures Or(k, x, Pow2(j) * q) == x + Pow2(j) * q
  {
    if j == 0 {
      OrOfNothing(k, q);
    } else if k == 0 {
      MulLeast(Pow2(j), q);
    } else {
      var y := Pow2(j - 1) * q;
      assert Pow2(j) * q == 2 * y;
      OrAdds(k - 1, x / 2, j - 1, q);
    }
  }

  lemma Powers(k: nat)
    requires k >= 32
    ensures Pow2(8) == 0x100 && Pow2(16) == 0x1_0000 && Pow2(24) == 0x100_0000 && Pow2(32) == 0x1_0000_0000 <= Pow2(k)
  {
    Values();
    PowSum(8, 8);
    PowSum(8, 16);
    PowSum(32, k - 32);
    MulLeast(Pow2(32), Pow2(k - 32));
    assert Pow2(k) == Pow2(k - 32) * Pow2(32);
    MulLeast(Pow2(k - 32), Pow2(32));
  }

  lemma ShiftIs(k: nat, x: nat, s: bv6, n: nat)
    requires n == s as nat
    ensures Shl(k, x, s) == x * Pow2(n) % Pow2(k)
  {
  }

  lemma ShiftFits(k: nat, x: nat, s: bv6, n: nat)
    requires n == s as nat && x * Pow2(n) < Pow2(k)
    ensures Shl(k, x, s) == Pow2(n) * x
  {
    ShiftIs(k, x, s, n);
    DivModUnique(x * Pow2(n), 0, x * Pow2(n), Pow2(k));
  }

  /** The three bytes that are shifted into place. */
  lemma ShiftedBytes(k: nat, n1: nat, n2: nat, n3: nat)
    requires k >= 32 && n1 < 256 && n2 < 256 && n3 < 256
    ensures Shl(k, n1, 8) == 0x100 * n1 && Shl(k, n2, 16) == 0x1_0000 * n2 && Shl(k, n3, 24) == 0x100_0000 * n3
  {
    Powers(k);
    ShiftFits(k, n1, 8, 8);
    ShiftFits(k, n2, 16, 16);
    ShiftFits(k, n3, 24, 24);
  }

  lemma JoinedBytes(k: nat, n0: nat, n1: nat, n2: nat, n3: nat)
    requires k >= 32 && n0 < 256 && n1 < 256 && n2 < 256 && n3 < 256
    ensures Or(k, Or(k, Or(k, n0, 0x100 * n1), 0x1_0000 * n2), 0x100_0000 * n3)
         == n0 + 0x100 * n1 + 0x1_0000 * n2 + 0x100_0000 * n3
  {
    Powers(k);
    OrAdds(k, n0, 8, n1);
    OrAdds(k, n0 + 0x100 * n1, 16, n2);
    OrAdds(k, n0 + 0x100 * n1 + 0x1_0000 * n2, 24, n3);
  }

  /** Theorem: a word read from four bytes is the number that they denote, the low-order byte first. */
  lemma WordIsNumber(k: nat, b0: Byte, b1: Byte, b2: Byte, b3: Byte)
    requires k >= 32
    ensures WordOf(Words(k), b0, b1, b2, b3)
         == b0 as nat + 0x100 * (b1 as nat) + 0x1_0000 * (b2 as nat) + 0x100_0000 * (b3 as nat)
  {
    ShiftedBytes(k, b1 as nat, b2 as nat, b3 as nat);
    JoinedBytes(k, b0 as nat, b1 as nat, b2 as nat, b3 as nat);
  }

  /** Theorem: the bytes of a word read from four bytes are these bytes. */
  lemma BytesOfWord(k: nat, b0: Byte, b1: Byte, b2: Byte, b3: Byte)
    requires k >= 32
    ensures BytesOf(Words(k), WordOf(Words(k), b0, b1, b2, b3)) == [b0, b1, b2, b3]
  {
    var n := WordOf(Words(k), b0, b1, b2, b3);
    WordIsNumber(k, b0, b1, b2, b3);
    DigitsOfWord(k, n, b0 as nat, b1 as nat, b2 as nat, b3 as nat);
    LowByteIs(n, b0);
    LowByteIs(Shr(k, n, 8), b1);
    LowByteIs(Shr(k, n, 16), b2);
    LowByteIs(Shr(k, n, 24), b3);
  }

  function WordAt(k: nat, bytes: seq<Byte>, j: nat): nat
    requires j + 4 <= |bytes|
  {
    WordOf(Words(k), bytes[j], bytes[j + 1], bytes[j + 2], bytes[j + 3])
  }

  lemma BytesAt(k: nat, bytes: seq<Byte>, j: nat)
    requires k >= 32 && j + 4 <= |bytes|
    ensures BytesOf(Words(k), WordAt(k, bytes, j)) == bytes[j..j + 4]
  {
    BytesOfWord(k, bytes[j], bytes[j + 1], bytes[j + 2], bytes[j + 3]);
  }

  /** Theorem: the digest is the four registers in order, each as the bytes that it would be read from. */
  lemma BytesOfRegisters(k: nat, bytes: seq<Byte>)
    requires k >= 32 && |bytes| == 16
    ensures StateBytes(Words(k), State(WordAt(k, bytes, 0), WordAt(k, bytes, 4), WordAt(k, bytes, 8), WordAt(k, bytes, 12))) == bytes
  {
    BytesAt(k, bytes, 0);
    BytesAt(k, bytes, 4);
    BytesAt(k, bytes, 8);
    BytesAt(k, bytes, 12);
    FourWords(Words(k), bytes, WordAt(k, bytes, 0), WordAt(k, bytes, 4), WordAt(k, bytes, 8), WordAt(k, bytes, 12));
  }

  lemma FourWords<W>(v: WordOps<W>, bytes: seq<Byte>, a: W, b: W, c: W, d: W)
    requires |bytes| == 16 && BytesOf(v, a) == bytes[0..4] && BytesOf(v, b) == bytes[4..8]
    requires BytesOf(v, c) == bytes[8..12] && BytesOf(v, d) == bytes[12..16]
    ensures StateBytes(v, State(a, b, c, d)) == bytes
  {
    assert bytes == bytes[0..4] + bytes[4..8] + bytes[8..12] + bytes[12..16];
  }

  lemma LowByteIs(x: nat, b: Byte)
    requires x % 256 == b as nat
    ensures LowByte(x) == b
  {
    assert (b as nat) as Byte == b;
  }

  lemma ShiftsDown(k: nat, n: nat)
    requires k >= 32 && n < 0x1_0000_0000
    ensures Shr(k, n, 8) == n / 0x100 && Shr(k, n, 16) == n / 0x1_0000 && Shr(k, n, 24) == n / 0x100_0000
  {
    Powers(k);
    DivModUnique(n, 0, n, Pow2(k));
  }

  lemma DigitsOfWord(k: nat, n: nat, n0: nat, n1: nat, n2: nat, n3: nat)
    requires k >= 32 && n0 < 256 && n1 < 256 && n2 < 256 && n3 < 256
    requires n == n0 + 0x100 * n1 + 0x1_0000 * n2 + 0x100_0000 * n3
    ensures n % 256 == n0 && Shr(k, n, 8) % 256 == n1 && Shr(k, n, 16) % 256 == n2 && Shr(k, n, 24) % 256 == n3
  {
    ShiftsDown(k, n);
    Digits(n0, n1, n2, n3);
  }

  lemma Digits(n0: nat, n1: nat, n2: nat, n3: nat)
    requires n0 < 256 && n1 < 256 && n2 < 256 && n3 < 256
    ensures var n := n0 + 0x100 * n1 + 0x1_0000 * n2 + 0x100_0000 * n3;
      n % 256 == n0 && n / 0x100 % 256 == n1 && n / 0x1_0000 % 256 == n2 && n / 0x100_0000 % 256 == n3
  {
    var n := n0 + 0x100 * n1 + 0x1_0000 * n2 + 0x100_0000 * n3;
    DigitOf(n0, n1 + 0x100 * n2 + 0x1_0000 * n3);
    DigitOf(n1, n2 + 0x100 * n3);
    DigitOf(n2, n3);
    DivideTwice(n);
    DivideThrice(n);
  }

  lemma DigitOf(r: nat, m: nat)
    requires r < 256
    ensures (r + 256 * m) % 256 == r && (r + 256 * m) / 256 == m
  {
  }
}
