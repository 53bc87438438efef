/**
The streaming MD5 of utils/md5.c, whose word type may be any unsigned integer type of 32 bits or more: the macros, the
unrolled block function, and the context with its partial block and its split length counter.
*/
module Md5 {
  import opened Md5Spec

  // ---------- The macros ----------

  function FastF<W>(w: WordOps<W>, x: W, y: W, z: W): W { w.xor(z, w.and(x, w.xor(y, z))) }
  function FastG<W>(w: WordOps<W>, x: W, y: W, z: W): W { w.xor(y, w.and(z, w.xor(x, y))) }
  function FastH<W>(w: WordOps<W>, x: W, y: W, z: W): W { w.xor(w.xor(x, y), z) }
  function FastH2<W>(w: WordOps<W>, x: W, y: W, z: W): W { w.xor(x, w.xor(y, z)) }
  function FastI<W>(w: WordOps<W>, x: W, y: W, z: W): W { w.xor(y, w.or(x, w.not(z))) }

  /** The sum of STEP, in the order of the macro and in the order of the RFC. */
  function FastSum<W>(w: WordOps<W>, a: W, f: W, x: W, t: W): W { w.add(a, w.add(w.add(f, x), t)) }
  function RfcSum<W>(w: WordOps<W>, a: W, f: W, x: W, t: W): W { w.add(w.add(w.add(a, f), x), t) }
  function LastSum<W>(w: WordOps<W>, r: W, b: W): W { w.add(r, b) }

  function FastRotate<W>(w: WordOps<W>, x: W, s: bv6): W
    requires s <= 32
  {
    w.or(w.shl(x, s), w.shr(w.and(x, w.numeral(0xffff_ffff)), 32 - s))
  }

  /** The end of the macro STEP: add to the register, rotate its low 32 bits, and add the next register. */
  function Turn<W>(w: WordOps<W>, a: W, f: W, x: W, t: bv32, s: bv6, b: W): W
    requires s <= 32
  {
    LastSum(w, FastRotate(w, FastSum(w, a, f, x, w.numeral(t)), s), b)
  }

  function StepF<W>(w: WordOps<W>, a: W, b: W, c: W, d: W, x: W, t: bv32, s: bv6): W
    requires s <= 32
  {
    Turn(w, a, FastF(w, b, c, d), x, t, s, b)
  }

  function StepG<W>(w: WordOps<W>, a: W, b: W, c: W, d: W, x: W, t: bv32, s: bv6): W
    requires s <= 32
  {
    Turn(w, a, FastG(w, b, c, d), x, t, s, b)
  }

  function StepH<W>(w: WordOps<W>, a: W, b: W, c: W, d: W, x: W, t: bv32, s: bv6): W
    requires s <= 32
  {
    Turn(w, a, FastH(w, b, c, d), x, t, s, b)
  }

  function StepH2<W>(w: WordOps<W>, a: W, b: W, c: W, d: W, x: W, t: bv32, s: bv6): W
    requires s <= 32
  {
    Turn(w, a, FastH2(w, b, c, d), x, t, s, b)
  }

  function StepI<W>(w: WordOps<W>, a: W, b: W, c: W, d: W, x: W, t: bv32, s: bv6): W
    requires s <= 32
  {
    Turn(w, a, FastI(w, b, c, d), x, t, s, b)
  }

  // ---------- Word types ----------

  /** The laws of 32-bit words that the rewritten macros rely on. */
  ghost predicate Laws<V(!new)>(v: WordOps<V>) {
    && (forall x, y, z :: FastF(v, x, y, z) == F(v, x, y, z))
    && (forall x, y, z :: FastG(v, x, y, z) == G(v, x, y, z))
    && (forall x, y, z :: FastH2(v, x, y, z) == H(v, x, y, z))
    && (forall a, f, x, t :: FastSum(v, a, f, x, t) == RfcSum(v, a, f, x, t))
    && (forall x, y {:trigger LastSum(v, x, y)} :: LastSum(v, x, y) == v.add(y, x))
  }

  ghost predicate KeepsBits<W(!new), V>(w: WordOps<W>, v: WordOps<V>, low: W -> V) {
    && (forall x, y {:trigger w.and(x, y), v.and(low(x), low(y))} :: low(w.and(x, y)) == v.and(low(x), low(y)))
    && (forall x, y {:trigger w.or(x, y), v.or(low(x), low(y))} :: low(w.or(x, y)) == v.or(low(x), low(y)))
    && (forall x, y {:trigger w.xor(x, y), v.xor(low(x), low(y))} :: low(w.xor(x, y)) == v.xor(low(x), low(y)))
    && (forall x {:trigger w.not(x), v.not(low(x))} :: low(w.not(x)) == v.not(low(x)))
  }

  ghost predicate KeepsSums<W(!new), V>(w: WordOps<W>, v: WordOps<V>, low: W -> V) {
    && (forall x, y {:trigger w.add(x, y), v.add(low(x), low(y))} :: low(w.add(x, y)) == v.add(low(x), low(y)))
    && (forall x, s: bv6 {:trigger w.shl(x, s), v.shl(low(x), s)} :: s <= 32 ==> low(w.shl(x, s)) == v.shl(low(x), s))
    && (forall x, s: bv6 {:trigger w.and(x, w.numeral(0xffff_ffff)), v.shr(low(x), s)} ::
          s <= 32 ==> low(w.shr(w.and(x, w.numeral(0xffff_ffff)), s)) == v.shr(low(x), s))
  }

  ghost predicate KeepsBytes<W(!new), V>(w: WordOps<W>, v: WordOps<V>, low: W -> V) {
    && (forall n :: low(w.numeral(n)) == v.numeral(n))
    && (forall b :: low(w.fromByte(b)) == v.fromByte(b))
    && (forall x :: w.toByte(x) == v.toByte(low(x)))
    && (forall x, s: bv6 :: s <= 24 ==> w.toByte(w.shr(x, s)) == v.toByte(v.shr(low(x), s)))
  }

  /**
  `low` takes the words of `w` to those of `v`, keeping every operation; a right shift needs only be kept on words
  whose bits above the low 32 are masked off.
  */
  ghost predicate Keeps<W(!new), V>(w: WordOps<W>, v: WordOps<V>, low: W -> V) {
    KeepsBits(w, v, low) && KeepsSums(w, v, low) && KeepsBytes(w, v, low)
  }

  function LowState<W, V>(low: W -> V, s: State<W>): State<V> {
    State(low(s.a), low(s.b), low(s.c), low(s.d))
  }

  function LowWords<W, V>(low: W -> V, words: seq<W>): (r: seq<V>)
    ensures |r| == |words|
  {
    seq(|words|, k requires 0 <= k < |words| => low(words[k]))
  }

  /** The sum, the rotation and the last addition of STEP, seen in the low 32 bits. */
  lemma TurnKept<W(!new), V(!new)>(w: WordOps<W>, v: WordOps<V>, low: W -> V, a: W, f: W, x: W, t: bv32, s: bv6, b: W)
    requires Keeps(w, v, low) && Laws(v) && s <= 32
    ensures low(Turn(w, a, f, x, t, s, b)) ==
      v.add(low(b), RotateLeft(v, v.add(v.add(v.add(low(a), low(f)), low(x)), v.numeral(t)), s))
  {
    var sum := FastSum(w, a, f, x, w.numeral(t));
    assert low(sum) == FastSum(v, low(a), low(f), low(x), v.numeral(t));
    assert low(FastRotate(w, sum, s)) == RotateLeft(v, low(sum), s);
    assert low(LastSum(w, FastRotate(w, sum, s), b)) == LastSum(v, RotateLeft(v, low(sum), s), low(b));
  }

  lemma FastFunctionsKept<W(!new), V(!new)>(w: WordOps<W>, v: WordOps<V>, low: W -> V, x: W, y: W, z: W)
    requires Keeps(w, v, low) && Laws(v)
    ensures low(FastF(w, x, y, z)) == F(v, low(x), low(y), low(z))
    ensures low(FastG(w, x, y, z)) == G(v, low(x), low(y), low(z))
    ensures low(FastH(w, x, y, z)) == H(v, low(x), low(y), low(z))
    ensures low(FastH2(w, x, y, z)) == H(v, low(x), low(y), low(z))
    ensures low(FastI(w, x, y, z)) == I(v, low(x), low(y), low(z))
  {
    assert low(FastF(w, x, y, z)) == FastF(v, low(x), low(y), low(z));
    assert low(FastG(w, x, y, z)) == FastG(v, low(x), low(y), low(z));
    assert low(FastH2(w, x, y, z)) == FastH2(v, low(x), low(y), low(z));
  }

  /** The macro of the source's step `i`; the third round alternates between the two forms of H. */
  function MacroStep<W>(w: WordOps<W>, i: nat, a: W, b: W, c: W, d: W, x: W, t: bv32, s: bv6): W
    requires s <= 32
  {
    if i < 16 then StepF(w, a, b, c, d, x, t, s)
    else if i < 32 then StepG(w, a, b, c, d, x, t, s)
    else if i >= 48 then StepI(w, a, b, c, d, x, t, s)
    else if i % 2 == 0 then StepH(w, a, b, c, d, x, t, s)
    else StepH2(w, a, b, c, d, x, t, s)
  }

  /** Every step of the source is the step of the RFC, in the low 32 bits. */
  lemma MacroStepKept<W(!new), V(!new)>(w: WordOps<W>, v: WordOps<V>, low: W -> V, i: nat, a: W, b: W, c: W, d: W, x: W)
    requires Keeps(w, v, low) && Laws(v)
    ensures low(MacroStep(w, i, a, b, c, d, x, Constant(i), Shift(i))) == Mix(v, i, low(a), low(b), low(c), low(d), low(x))
  {
    FastFunctionsKept(w, v, low, b, c, d);
    var f := if i < 16 then FastF(w, b, c, d) else if i < 32 then FastG(w, b, c, d)
             else if i >= 48 then FastI(w, b, c, d) else if i % 2 == 0 then FastH(w, b, c, d) else FastH2(w, b, c, d);
    TurnKept(w, v, low, a, f, x, Constant(i), Shift(i), b);
  }

  /** Four steps from step `i`, in which the registers come back to their places. */
  function FourMacros<W>(w: WordOps<W>, i: nat, s: State<W>, x0: W, t0: bv32, x1: W, t1: bv32, x2: W, t2: bv32, x3: W, t3: bv32): State<W> {
    var a := MacroStep(w, i, s.a, s.b, s.c, s.d, x0, t0, Shift(i));
    var d := MacroStep(w, i + 1, s.d, a, s.b, s.c, x1, t1, Shift(i + 1));
    var c := MacroStep(w, i + 2, s.c, d, a, s.b, x2, t2, Shift(i + 2));
    var b := MacroStep(w, i + 3, s.b, c, d, a, x3, t3, Shift(i + 3));
    State(a, b, c, d)
  }

  function FourSteps<W>(w: WordOps<W>, i: nat, s: State<W>, block: seq<W>): State<W>
    requires |block| == 16
  {
    FourMacros(w, i, s, block[WordIndex(i)], Constant(i), block[WordIndex(i + 1)], Constant(i + 1),
               block[WordIndex(i + 2)], Constant(i + 2), block[WordIndex(i + 3)], Constant(i + 3))
  }

  lemma OneStepKept<W(!new), V(!new)>(w: WordOps<W>, v: WordOps<V>, low: W -> V, i: nat, s: State<W>, block: seq<W>, s0: State<V>)
    requires Keeps(w, v, low) && Laws(v) && |block| == 16
    requires LowState(low, s) == Steps(v, i, s0, LowWords(low, block))
    ensures LowState(low, State(s.d, MacroStep(w, i, s.a, s.b, s.c, s.d, block[WordIndex(i)], Constant(i), Shift(i)), s.b, s.c))
         == Steps(v, i + 1, s0, LowWords(low, block))
  {
    MacroStepKept(w, v, low, i, s.a, s.b, s.c, s.d, block[WordIndex(i)]);
  }

  lemma FourStepsKept<W(!new), V(!new)>(w: WordOps<W>, v: WordOps<V>, low: W -> V, i: nat, s: State<W>, block: seq<W>, s0: State<V>)
    requires Keeps(w, v, low) && Laws(v) && |block| == 16
    requires LowState(low, s) == Steps(v, i, s0, LowWords(low, block))
    ensures LowState(low, FourSteps(w, i, s, block)) == Steps(v, i + 4, s0, LowWords(low, block))
  {
    var a := MacroStep(w, i, s.a, s.b, s.c, s.d, block[WordIndex(i)], Constant(i), Shift(i));
    var d := MacroStep(w, i + 1, s.d, a, s.b, s.c, block[WordIndex(i + 1)], Constant(i + 1), Shift(i + 1));
    var c := MacroStep(w, i + 2, s.c, d, a, s.b, block[WordIndex(i + 2)], Constant(i + 2), Shift(i + 2));
    OneStepKept(w, v, low, i, s, block, s0);
    OneStepKept(w, v, low, i + 1, State(s.d, a, s.b, s.c), block, s0);
    OneStepKept(w, v, low, i + 2, State(s.c, d, a, s.b), block, s0);
    OneStepKept(w, v, low, i + 3, State(s.b, c, d, a), block, s0);
  }

  // ---------- The unrolled rounds ----------

  /** Four lines of round 1. */
  function FourF<W>(w: WordOps<W>, s: State<W>, x0: W, t0: bv32, x1: W, t1: bv32, x2: W, t2: bv32, x3: W, t3: bv32): State<W> {
    var a := StepF(w, s.a, s.b, s.c, s.d, x0, t0, 7);
    var d := StepF(w, s.d, a, s.b, s.c, x1, t1, 12);
    var c := StepF(w, s.c, d, a, s.b, x2, t2, 17);
    var b := StepF(w, s.b, c, d, a, x3, t3, 22);
    State(a, b, c, d)
  }

  /** Four lines of round 2. */
  function FourG<W>(w: WordOps<W>, s: State<W>, x0: W, t0: bv32, x1: W, t1: bv32, x2: W, t2: bv32, x3: W, t3: bv32): State<W> {
    var a := StepG(w, s.a, s.b, s.c, s.d, x0, t0, 5);
    var d := StepG(w, s.d, a, s.b, s.c, x1, t1, 9);
    var c := StepG(w, s.c, d, a, s.b, x2, t2, 14);
    var b := StepG(w, s.b, c, d, a, x3, t3, 20);
    State(a, b, c, d)
  }

  /** Four lines of round 3. */
  function FourH<W>(w: WordOps<W>, s: State<W>, x0: W, t0: bv32, x1: W, t1: bv32, x2: W, t2: bv32, x3: W, t3: bv32): State<W> {
    var a := StepH(w, s.a, s.b, s.c, s.d, x0, t0, 4);
    var d := StepH2(w, s.d, a, s.b, s.c, x1, t1, 11);
    var c := StepH(w, s.c, d, a, s.b, x2, t2, 16);
    var b := StepH2(w, s.b, c, d, a, x3, t3, 23);
    State(a, b, c, d)
  }

  /** Four lines of round 4. */
  function FourI<W>(w: WordOps<W>, s: State<W>, x0: W, t0: bv32, x1: W, t1: bv32, x2: W, t2: bv32, x3: W, t3: bv32): State<W> {
    var a := StepI(w, s.a, s.b, s.c, s.d, x0, t0, 6);
    var d := StepI(w, s.d, a, s.b, s.c, x1, t1, 10);
    var c := StepI(w, s.c, d, a, s.b, x2, t2, 15);
    var b := StepI(w, s.b, c, d, a, x3, t3, 21);
    State(a, b, c, d)
  }

  function Round1<W>(w: WordOps<W>, s: State<W>, x: seq<W>): State<W>
    requires |x| == 16
  {
    var s1 := FourF(w, s, x[0], 0xd76aa478, x[1], 0xe8c7b756, x[2], 0x242070db, x[3], 0xc1bdceee);
    var s2 := FourF(w, s1, x[4], 0xf57c0faf, x[5], 0x4787c62a, x[6], 0xa8304613, x[7], 0xfd469501);
    var s3 := FourF(w, s2, x[8], 0x698098d8, x[9], 0x8b44f7af, x[10], 0xffff5bb1, x[11], 0x895cd7be);
    FourF(w, s3, x[12], 0x6b901122, x[13], 0xfd987193, x[14], 0xa679438e, x[15], 0x49b40821)
  }

  function Round2<W>(w: WordOps<W>, s: State<W>, x: seq<W>): State<W>
    requires |x| == 16
  {
    var s1 := FourG(w, s, x[1], 0xf61e2562, x[6], 0xc040b340, x[11], 0x265e5a51, x[0], 0xe9b6c7aa);
    var s2 := FourG(w, s1, x[5], 0xd62f105d, x[10], 0x02441453, x[15], 0xd8a1e681, x[4], 0xe7d3fbc8);
    var s3 := FourG(w, s2, x[9], 0x21e1cde6, x[14], 0xc33707d6, x[3], 0xf4d50d87, x[8], 0x455a14ed);
    FourG(w, s3, x[13], 0xa9e3e905, x[2], 0xfcefa3f8, x[7], 0x676f02d9, x[12], 0x8d2a4c8a)
  }

  function Round3<W>(w: WordOps<W>, s: State<W>, x: seq<W>): State<W>
    requires |x| == 16
  {
    var s1 := FourH(w, s, x[5], 0xfffa3942, x[8], 0x8771f681, x[11], 0x6d9d6122, x[14], 0xfde5380c);
    var s2 := FourH(w, s1, x[1], 0xa4beea44, x[4], 0x4bdecfa9, x[7], 0xf6bb4b60, x[10], 0xbebfbc70);
    var s3 := FourH(w, s2, x[13], 0x289b7ec6, x[0], 0xeaa127fa, x[3], 0xd4ef3085, x[6], 0x04881d05);
    FourH(w, s3, x[9], 0xd9d4d039, x[12], 0xe6db99e5, x[15], 0x1fa27cf8, x[2], 0xc4ac5665)
  }

  function Round4<W>(w: WordOps<W>, s: State<W>, x: seq<W>): State<W>
    requires |x| == 16
  {
    var s1 := FourI(w, s, x[0], 0xf4292244, x[7], 0x432aff97, x[14], 0xab9423a7, x[5], 0xfc93a039);
    var s2 := FourI(w, s1, x[12], 0x655b59c3, x[3], 0x8f0ccc92, x[10], 0xffeff47d, x[1], 0x85845dd1);
    var s3 := FourI(w, s2, x[8], 0x6fa87e4f, x[15], 0xfe2ce6e0, x[6], 0xa3014314, x[13], 0x4e0811a1);
    FourI(w, s3, x[4], 0xf7537e82, x[11], 0xbd3af235, x[2], 0x2ad7d2bb, x[9], 0xeb86d391)
  }

  lemma FourFIs<W>(w: WordOps<W>, i: nat, s: State<W>, x0: W, t0: bv32, x1: W, t1: bv32, x2: W, t2: bv32, x3: W, t3: bv32)
    requires 0 <= i < 16 && i % 4 == 0
    ensures FourF(w, s, x0, t0, x1, t1, x2, t2, x3, t3) == FourMacros(w, i, s, x0, t0, x1, t1, x2, t2, x3, t3)
  {
    ShiftF(i);
  }

  lemma ShiftF(i: nat)
    requires 0 <= i < 16 && i % 4 == 0
    ensures Shift(i) == 7 && Shift(i + 1) == 12 && Shift(i + 2) == 17 && Shift(i + 3) == 22
  {
  }

  lemma FourGIs<W>(w: WordOps<W>, i: nat, s: State<W>, x0: W, t0: bv32, x1: W, t1: bv32, x2: W, t2: bv32, x3: W, t3: bv32)
    requires 16 <= i < 32 && i % 4 == 0
    ensures FourG(w, s, x0, t0, x1, t1, x2, t2, x3, t3) == FourMacros(w, i, s, x0, t0, x1, t1, x2, t2, x3, t3)
  {
    ShiftG(i);
  }

  lemma ShiftG(i: nat)
    requires 16 <= i < 32 && i % 4 == 0
    ensures Shift(i) == 5 && Shift(i + 1) == 9 && Shift(i + 2) == 14 && Shift(i + 3) == 20
  {
  }

  lemma FourHIs<W>(w: WordOps<W>, i: nat, s: State<W>, x0: W, t0: bv32, x1: W, t1: bv32, x2: W, t2: bv32, x3: W, t3: bv32)
    requires 32 <= i < 48 && i % 4 == 0
    ensures FourH(w, s, x0, t0, x1, t1, x2, t2, x3, t3) == FourMacros(w, i, s, x0, t0, x1, t1, x2, t2, x3, t3)
  {
    ShiftH(i);
  }

  lemma ShiftH(i: nat)
    requires 32 <= i < 48 && i % 4 == 0
    ensures Shift(i) == 4 && Shift(i + 1) == 11 && Shift(i + 2) == 16 && Shift(i + 3) == 23
  {
  }

  lemma FourIIs<W>(w: WordOps<W>, i: nat, s: State<W>, x0: W, t0: bv32, x1: W, t1: bv32, x2: W, t2: bv32, x3: W, t3: bv32)
    requires 48 <= i < 64 && i % 4 == 0
    ensures FourI(w, s, x0, t0, x1, t1, x2, t2, x3, t3) == FourMacros(w, i, s, x0, t0, x1, t1, x2, t2, x3, t3)
  {
    ShiftI(i);
  }

  lemma ShiftI(i: nat)
    requires 48 <= i < 64 && i % 4 == 0
    ensures Shift(i) == 6 && Shift(i + 1) == 10 && Shift(i + 2) == 15 && Shift(i + 3) == 21
  {
  }

  /** Sixteen macro steps from step `i`. */
  function SixteenSteps<W>(w: WordOps<W>, i: nat, s: State<W>, x: seq<W>): State<W>
    requires |x| == 16
  {
    FourSteps(w, i + 12, FourSteps(w, i + 8, FourSteps(w, i + 4, FourSteps(w, i, s, x), x), x), x)
  }

  lemma Table1()
    ensures WordIndex(0) == 0 && WordIndex(1) == 1 && WordIndex(2) == 2 && WordIndex(3) == 3
    ensures WordIndex(4) == 4 && WordIndex(5) == 5 && WordIndex(6) == 6 && WordIndex(7) == 7
    ensures WordIndex(8) == 8 && WordIndex(9) == 9 && WordIndex(10) == 10 && WordIndex(11) == 11
    ensures WordIndex(12) == 12 && WordIndex(13) == 13 && WordIndex(14) == 14 && WordIndex(15) == 15
    ensures Constant(0) == 0xd76aa478 && Constant(1) == 0xe8c7b756 && Constant(2) == 0x242070db && Constant(3) == 0xc1bdceee
    ensures Constant(4) == 0xf57c0faf && Constant(5) == 0x4787c62a && Constant(6) == 0xa8304613 && Constant(7) == 0xfd469501
    ensures Constant(8) == 0x698098d8 && Constant(9) == 0x8b44f7af && Constant(10) == 0xffff5bb1 && Constant(11) == 0x895cd7be
    ensures Constant(12) == 0x6b901122 && Constant(13) == 0xfd987193 && Constant(14) == 0xa679438e && Constant(15) == 0x49b40821
  {
  }

  lemma Round1Is<W>(w: WordOps<W>, s: State<W>, x: seq<W>)
    requires |x| == 16
    ensures Round1(w, s, x) == SixteenSteps(w, 0, s, x)
  {
    Table1();
    FourFIs(w, 0, s, x[0], 0xd76aa478, x[1], 0xe8c7b756, x[2], 0x242070db, x[3], 0xc1bdceee);
    var s1 := FourSteps(w, 0, s, x);
    FourFIs(w, 4, s1, x[4], 0xf57c0faf, x[5], 0x4787c62a, x[6], 0xa8304613, x[7], 0xfd469501);
    var s2 := FourSteps(w, 4, s1, x);
    FourFIs(w, 8, s2, x[8], 0x698098d8, x[9], 0x8b44f7af, x[10], 0xffff5bb1, x[11], 0x895cd7be);
    var s3 := FourSteps(w, 8, s2, x);
    FourFIs(w, 12, s3, x[12], 0x6b901122, x[13], 0xfd987193, x[14], 0xa679438e, x[15], 0x49b40821);
  }

  lemma Table2()
    ensures WordIndex(16) == 1 && WordIndex(17) == 6 && WordIndex(18) == 11 && WordIndex(19) == 0
    ensures WordIndex(20) == 5 && WordIndex(21) == 10 && WordIndex(22) == 15 && WordIndex(23) == 4
    ensures WordIndex(24) == 9 && WordIndex(25) == 14 && WordIndex(26) == 3 && WordIndex(27) == 8
    ensures WordIndex(28) == 13 && WordIndex(29) == 2 && WordIndex(30) == 7 && WordIndex(31) == 12
    ensures Constant(16) == 0xf61e2562 && Constant(17) == 0xc040b340 && Constant(18) == 0x265e5a51 && Constant(19) == 0xe9b6c7aa
    ensures Constant(20) == 0xd62f105d && Constant(21) == 0x02441453 && Constant(22) == 0xd8a1e681 && Constant(23) == 0xe7d3fbc8
    ensures Constant(24) == 0x21e1cde6 && Constant(25) == 0xc33707d6 && Constant(26) == 0xf4d50d87 && Constant(27) == 0x455a14ed
    ensures Constant(28) == 0xa9e3e905 && Constant(29) == 0xfcefa3f8 && Constant(30) == 0x676f02d9 && Constant(31) == 0x8d2a4c8a
  {
  }

  lemma Round2Is<W>(w: WordOps<W>, s: State<W>, x: seq<W>)
    requires |x| == 16
    ensures Round2(w, s, x) == SixteenSteps(w, 16, s, x)
  {
    Table2();
    FourGIs(w, 16, s, x[1], 0xf61e2562, x[6], 0xc040b340, x[11], 0x265e5a51, x[0], 0xe9b6c7aa);
    var s1 := FourSteps(w, 16, s, x);
    FourGIs(w, 20, s1, x[5], 0xd62f105d, x[10], 0x02441453, x[15], 0xd8a1e681, x[4], 0xe7d3fbc8);
    var s2 := FourSteps(w, 20, s1, x);
    FourGIs(w, 24, s2, x[9], 0x21e1cde6, x[14], 0xc33707d6, x[3], 0xf4d50d87, x[8], 0x455a14ed);
    var s3 := FourSteps(w, 24, s2, x);
    FourGIs(w, 28, s3, x[13], 0xa9e3e905, x[2], 0xfcefa3f8, x[7], 0x676f02d9, x[12], 0x8d2a4c8a);
  }

  lemma Table3()
    ensures WordIndex(32) == 5 && WordIndex(33) == 8 && WordIndex(34) == 11 && WordIndex(35) == 14
    ensures WordIndex(36) == 1 && WordIndex(37) == 4 && WordIndex(38) == 7 && WordIndex(39) == 10
    ensures WordIndex(40) == 13 && WordIndex(41) == 0 && WordIndex(42) == 3 && WordIndex(43) == 6
    ensures WordIndex(44) == 9 && WordIndex(45) == 12 && WordIndex(46) == 15 && WordIndex(47) == 2
    ensures Constant(32) == 0xfffa3942 && Constant(33) == 0x8771f681 && Constant(34) == 0x6d9d6122 && Constant(35) == 0xfde5380c
    ensures Constant(36) == 0xa4beea44 && Constant(37) == 0x4bdecfa9 && Constant(38) == 0xf6bb4b60 && Constant(39) == 0xbebfbc70
    ensures Constant(40) == 0x289b7ec6 && Constant(41) == 0xeaa127fa && Constant(42) == 0xd4ef3085 && Constant(43) == 0x04881d05
    ensures Constant(44) == 0xd9d4d039 && Constant(45) == 0xe6db99e5 && Constant(46) == 0x1fa27cf8 && Constant(47) == 0xc4ac5665
  {
  }

  lemma Round3Is<W>(w: WordOps<W>, s: State<W>, x: seq<W>)
    requires |x| == 16
    ensures Round3(w, s, x) == SixteenSteps(w, 32, s, x)
  {
    Table3();
    FourHIs(w, 32, s, x[5], 0xfffa3942, x[8], 0x8771f681, x[11], 0x6d9d6122, x[14], 0xfde5380c);
    var s1 := FourSteps(w, 32, s, x);
    FourHIs(w, 36, s1, x[1], 0xa4beea44, x[4], 0x4bdecfa9, x[7], 0xf6bb4b60, x[10], 0xbebfbc70);
    var s2 := FourSteps(w, 36, s1, x);
    FourHIs(w, 40, s2, x[13], 0x289b7ec6, x[0], 0xeaa127fa, x[3], 0xd4ef3085, x[6], 0x04881d05);
    var s3 := FourSteps(w, 40, s2, x);
    FourHIs(w, 44, s3, x[9], 0xd9d4d039, x[12], 0xe6db99e5, x[15], 0x1fa27cf8, x[2], 0xc4ac5665);
  }

  lemma Table4()
    ensures WordIndex(48) == 0 && WordIndex(49) == 7 && WordIndex(50) == 14 && WordIndex(51) == 5
    ensures WordIndex(52) == 12 && WordIndex(53) == 3 && WordIndex(54) == 10 && WordIndex(55) == 1
    ensures WordIndex(56) == 8 && WordIndex(57) == 15 && WordIndex(58) == 6 && WordIndex(59) == 13
    ensures WordIndex(60) == 4 && WordIndex(61) == 11 && WordIndex(62) == 2 && WordIndex(63) == 9
    ensures Constant(48) == 0xf4292244 && Constant(49) == 0x432aff97 && Constant(50) == 0xab9423a7 && Constant(51) == 0xfc93a039
    ensures Constant(52) == 0x655b59c3 && Constant(53) == 0x8f0ccc92 && Constant(54) == 0xffeff47d && Constant(55) == 0x85845dd1
    ensures Constant(56) == 0x6fa87e4f && Constant(57) == 0xfe2ce6e0 && Constant(58) == 0xa3014314 && Constant(59) == 0x4e0811a1
    ensures Constant(60) == 0xf7537e82 && Constant(61) == 0xbd3af235 && Constant(62) == 0x2ad7d2bb && Constant(63) == 0xeb86d391
  {
  }

  lemma Round4Is<W>(w: WordOps<W>, s: State<W>, x: seq<W>)
    requires |x| == 16
    ensures Round4(w, s, x) == SixteenSteps(w, 48, s, x)
  {
    Table4();
    FourIIs(w, 48, s, x[0], 0xf4292244, x[7], 0x432aff97, x[14], 0xab9423a7, x[5], 0xfc93a039);
    var s1 := FourSteps(w, 48, s, x);
    FourIIs(w, 52, s1, x[12], 0x655b59c3, x[3], 0x8f0ccc92, x[10], 0xffeff47d, x[1], 0x85845dd1);
    var s2 := FourSteps(w, 52, s1, x);
    FourIIs(w, 56, s2, x[8], 0x6fa87e4f, x[15], 0xfe2ce6e0, x[6], 0xa3014314, x[13], 0x4e0811a1);
    var s3 := FourSteps(w, 56, s2, x);
    FourIIs(w, 60, s3, x[4], 0xf7537e82, x[11], 0xbd3af235, x[2], 0x2ad7d2bb, x[9], 0xeb86d391);
  }

  lemma SumKept<W(!new), V(!new)>(w: WordOps<W>, v: WordOps<V>, low: W -> V, s: State<W>, t: State<W>)
    requires Keeps(w, v, low)
    ensures LowState(low, Sum(w, s, t)) == Sum(v, LowState(low, s), LowState(low, t))
  {
  }

  lemma SixteenKept<W(!new), V(!new)>(w: WordOps<W>, v: WordOps<V>, low: W -> V, i: nat, s: State<W>, x: seq<W>, s0: State<V>)
    requires Keeps(w, v, low) && Laws(v) && |x| == 16
    requires LowState(low, s) == Steps(v, i, s0, LowWords(low, x))
    ensures LowState(low, SixteenSteps(w, i, s, x)) == Steps(v, i + 16, s0, LowWords(low, x))
  {
    var s1 := FourSteps(w, i, s, x);
    FourStepsKept(w, v, low, i, s, x, s0);
    var s2 := FourSteps(w, i + 4, s1, x);
    FourStepsKept(w, v, low, i + 4, s1, x, s0);
    var s3 := FourSteps(w, i + 8, s2, x);
    FourStepsKept(w, v, low, i + 8, s2, x, s0);
    FourStepsKept(w, v, low, i + 12, s3, x, s0);
  }

  /** The 64 lines of the macro body. */
  function Rounds<W>(w: WordOps<W>, s: State<W>, x: seq<W>): State<W>
    requires |x| == 16
  {
    Round4(w, Round3(w, Round2(w, Round1(w, s, x), x), x), x)
  }

  lemma Round1Kept<W(!new), V(!new)>(w: WordOps<W>, v: WordOps<V>, low: W -> V, s: State<W>, x: seq<W>, s0: State<V>)
    requires Keeps(w, v, low) && Laws(v) && |x| == 16 && LowState(low, s) == Steps(v, 0, s0, LowWords(low, x))
    ensures LowState(low, Round1(w, s, x)) == Steps(v, 16, s0, LowWords(low, x))
  {
    Round1Is(w, s, x);
    SixteenKept(w, v, low, 0, s, x, s0);
  }

  lemma Round2Kept<W(!new), V(!new)>(w: WordOps<W>, v: WordOps<V>, low: W -> V, s: State<W>, x: seq<W>, s0: State<V>)
    requires Keeps(w, v, low) && Laws(v) && |x| == 16 && LowState(low, s) == Steps(v, 16, s0, LowWords(low, x))
    ensures LowState(low, Round2(w, s, x)) == Steps(v, 32, s0, LowWords(low, x))
  {
    Round2Is(w, s, x);
    SixteenKept(w, v, low, 16, s, x, s0);
  }

  lemma Round3Kept<W(!new), V(!new)>(w: WordOps<W>, v: WordOps<V>, low: W -> V, s: State<W>, x: seq<W>, s0: State<V>)
    requires Keeps(w, v, low) && Laws(v) && |x| == 16 && LowState(low, s) == Steps(v, 32, s0, LowWords(low, x))
    ensures LowState(low, Round3(w, s, x)) == Steps(v, 48, s0, LowWords(low, x))
  {
    Round3Is(w, s, x);
    SixteenKept(w, v, low, 32, s, x, s0);
  }

  lemma Round4Kept<W(!new), V(!new)>(w: WordOps<W>, v: WordOps<V>, low: W -> V, s: State<W>, x: seq<W>, s0: State<V>)
    requires Keeps(w, v, low) && Laws(v) && |x| == 16 && LowState(low, s) == Steps(v, 48, s0, LowWords(low, x))
    ensures LowState(low, Round4(w, s, x)) == Steps(v, 64, s0, LowWords(low, x))
  {
    Round4Is(w, s, x);
    SixteenKept(w, v, low, 48, s, x, s0);
  }

  lemma RoundsKept<W(!new), V(!new)>(w: WordOps<W>, v: WordOps<V>, low: W -> V, s: State<W>, x: seq<W>)
    requires Keeps(w, v, low) && Laws(v) && |x| == 16
    ensures LowState(low, Rounds(w, s, x)) == Steps(v, 64, LowState(low, s), LowWords(low, x))
  {
    var s1 := Round1(w, s, x);
    Round1Kept(w, v, low, s, x, LowState(low, s));
    var s2 := Round2(w, s1, x);
    Round2Kept(w, v, low, s1, x, LowState(low, s));
    var s3 := Round3(w, s2, x);
    Round3Kept(w, v, low, s2, x, LowState(low, s));
    Round4Kept(w, v, low, s3, x, LowState(low, s));
  }

  /** The macro body on one block: the 64 lines, and the saved registers added. */
  function FastBlock<W>(w: WordOps<W>, s: State<W>, bytes: Chunk): State<W> {
    Sum(w, Rounds(w, s, WordsOf(w, bytes)), s)
  }

  function FastBlockFunction<W>(w: WordOps<W>): (State<W>, Chunk) -> State<W> {
    (s: State<W>, bytes: Chunk) => FastBlock(w, s, bytes)
  }

  function FastDigest<W>(w: WordOps<W>, message: seq<Byte>): (r: seq<Byte>)
    ensures |r| == 16
  {
    StateBytes(w, FoldBlocks(FastBlockFunction(w), InitialState(w), Pad(message)))
  }

  lemma SumOfRoundsKept<W(!new), V(!new)>(w: WordOps<W>, v: WordOps<V>, low: W -> V, s: State<W>, x: seq<W>)
    requires Keeps(w, v, low) && Laws(v) && |x| == 16
    ensures LowState(low, Sum(w, Rounds(w, s, x), s)) == Block(v, LowState(low, s), LowWords(low, x))
  {
    RoundsKept(w, v, low, s, x);
    SumKept(w, v, low, Rounds(w, s, x), s);
  }

  lemma InitialKept<W(!new), V(!new)>(w: WordOps<W>, v: WordOps<V>, low: W -> V)
    requires Keeps(w, v, low)
    ensures LowState(low, InitialState(w)) == InitialState(v)
  {
  }

  lemma WordsMap<W(!new), V(!new)>(w: WordOps<W>, v: WordOps<V>, low: W -> V, bytes: Chunk)
    requires forall b0, b1, b2, b3 :: low(WordOf(w, b0, b1, b2, b3)) == WordOf(v, b0, b1, b2, b3)
    ensures LowWords(low, WordsOf(w, bytes)) == WordsOf(v, bytes)
  {
  }

  lemma WordsKept<W(!new), V(!new)>(w: WordOps<W>, v: WordOps<V>, low: W -> V, bytes: Chunk)
    requires Keeps(w, v, low)
    ensures LowWords(low, WordsOf(w, bytes)) == WordsOf(v, bytes)
  {
    forall b0, b1, b2, b3 ensures low(WordOf(w, b0, b1, b2, b3)) == WordOf(v, b0, b1, b2, b3) {
      WordKept(w, v, low, b0, b1, b2, b3);
    }
    WordsMap(w, v, low, bytes);
  }

  lemma WordKept<W(!new), V(!new)>(w: WordOps<W>, v: WordOps<V>, low: W -> V, b0: Byte, b1: Byte, b2: Byte, b3: Byte)
    requires Keeps(w, v, low)
    ensures low(WordOf(w, b0, b1, b2, b3)) == WordOf(v, b0, b1, b2, b3)
  {
  }

  lemma BytesKept<W(!new), V(!new)>(w: WordOps<W>, v: WordOps<V>, low: W -> V, x: W)
    requires Keeps(w, v, low)
    ensures BytesOf(w, x) == BytesOf(v, low(x))
  {
  }

  /** Theorem: in the low 32 bits the unrolled block function is that of the RFC, whatever the word type. */
  lemma BlockKept<W(!new), V(!new)>(w: WordOps<W>, v: WordOps<V>, low: W -> V, s: State<W>, bytes: Chunk)
    requires Keeps(w, v, low) && Laws(v)
    ensures LowState(low, FastBlock(w, s, bytes)) == Block(v, LowState(low, s), WordsOf(v, bytes))
  {
    SumOfRoundsKept(w, v, low, s, WordsOf(w, bytes));
    WordsKept(w, v, low, bytes);
  }

  lemma BlockFunctionKept<W(!new), V(!new)>(w: WordOps<W>, v: WordOps<V>, low: W -> V, s: State<W>, bytes: Chunk)
    requires Keeps(w, v, low) && Laws(v)
    ensures LowState(low, FastBlockFunction(w)(s, bytes)) == BlockFunction(v)(LowState(low, s), bytes)
  {
    BlockKept(w, v, low, s, bytes);
  }

  lemma FoldKept<W(!new), V(!new)>(w: WordOps<W>, v: WordOps<V>, low: W -> V, s: State<W>, data: seq<Byte>)
    requires Keeps(w, v, low) && Laws(v)
    ensures LowState(low, FoldBlocks(FastBlockFunction(w), s, data)) == FoldBlocks(BlockFunction(v), LowState(low, s), data)
  {
    var f, g := FastBlockFunction(w), BlockFunction(v);
    var h := (s: State<W>) => LowState(low, s);
    forall s: State<W>, b: Chunk ensures h(f(s, b)) == g(h(s), b) {
      BlockFunctionKept(w, v, low, s, b);
    }
    FoldMaps(f, g, h, s, data);
  }

  /** Theorem: whatever the word type, the program computes the digest of the RFC. */
  lemma DigestKept<W(!new), V(!new)>(w: WordOps<W>, v: WordOps<V>, low: W -> V, message: seq<Byte>)
    requires Keeps(w, v, low) && Laws(v)
    ensures FastDigest(w, message) == Digest(v, message)
  {
    var s := FoldBlocks(FastBlockFunction(w), InitialState(w), Pad(message));
    InitialKept(w, v, low);
    FoldKept(w, v, low, InitialState(w), Pad(message));
    BytesKept(w, v, low, s.a);
    BytesKept(w, v, low, s.b);
    BytesKept(w, v, low, s.c);
    BytesKept(w, v, low, s.d);
  }

  // ---------- The context ----------

  /**
  MD5_CTX. `ops` is the word type of the program and `wrap` the number of values of the high counter; `fed` is the
  message so far.
  */
  class Context<W(!new)> {
    const ops: WordOps<W>
    const wrap: nat
    var lo: nat
    var hi: nat
    var a: W
    var b: W
    var c: W
    var d: W
    const buffer: array<Byte>
    const block: array<W>
    ghost var fed: seq<Byte>
    /** How many bytes of the message were in complete blocks. */
    ghost var whole: nat
    /** The high counter without its overflow. */
    ghost var high: nat
    /** A name for the block function of the program, so that proofs about the message need not unfold it. */
    ghost const f: (State<W>, Chunk) -> State<W>

    predicate Sized() {
      wrap > 0 && wrap % TWO_32 == 0 && buffer.Length == 64 && block.Length == 16
    }

    /** `f` is the block function of the program, point by point. */
    ghost predicate Linked() {
      forall s: State<W>, bytes: Chunk {:trigger FastBlock(ops, s, bytes)} :: f(s, bytes) == FastBlock(ops, s, bytes)
    }

    function Registers(): State<W>
      reads this
    {
      State(a, b, c, d)
    }

    /** The registers hold the fold of the first `whole` bytes. */
    ghost predicate Folded()
      reads this
    {
      whole % 64 == 0 && whole <= |fed| && Registers() == FoldBlocks(f, InitialState(ops), fed[..whole])
    }

    /** The counters hold `n`, the high one modulo 2^32. */
    ghost predicate Counts(n: nat)
      reads this
    {
      lo < 0x2000_0000 && n == lo + 0x2000_0000 * high && hi % TWO_32 == high % TWO_32
    }

    /** The registers hold the fold of the complete blocks, the buffer the rest, and the counters the length. */
    ghost predicate Valid()
      reads this, buffer
    {
      Sized() && Folded() && |fed| < whole + 64 && buffer[..|fed| - whole] == fed[whole..] && Counts(|fed|)
    }

    constructor (ops: WordOps<W>, wrap: nat)
      requires wrap > 0 && wrap % TWO_32 == 0
      ensures Valid() && Linked() && fed == [] && this.ops == ops
      ensures fresh(buffer) && fresh(block)
    {
      this.ops, this.wrap, f := ops, wrap, FastBlockFunction(ops);
      buffer := new Byte[64](_ => 0);
      block := new W[16](_ => ops.numeral(0));
      lo, hi, high := 0, 0, 0;
      a, b, c, d := ops.numeral(0x67452301), ops.numeral(0xefcdab89), ops.numeral(0x98badcfe), ops.numeral(0x10325476);
      fed, whole := [], 0;
    }

    /** MD5_Init. */
    method Init()
      requires Sized()
      modifies this
      ensures Valid() && fed == []
    {
      lo, hi, high := 0, 0, 0;
      a, b, c, d := ops.numeral(0x67452301), ops.numeral(0xefcdab89), ops.numeral(0x98badcfe), ops.numeral(0x10325476);
      fed, whole := [], 0;
    }

    /** The macro SET. */
    method Set(n: nat, b0: Byte, b1: Byte, b2: Byte, b3: Byte)
      requires n < block.Length
      modifies block
      ensures block[n] == WordOf(ops, b0, b1, b2, b3) && forall k | 0 <= k < block.Length && k != n :: block[k] == old(block[k])
    {
      block[n] := ops.or(ops.or(ops.or(ops.fromByte(b0), ops.shl(ops.fromByte(b1), 8)), ops.shl(ops.fromByte(b2), 16)),
                         ops.shl(ops.fromByte(b3), 24));
    }

    /** The sixteen words of a block. */
    method ReadBlock(bytes: seq<Byte>)
      requires block.Length == 16 && |bytes| == 64
      modifies block
      ensures block[..] == WordsOf(ops, bytes)
    {
      var n := 0;
      while n < 16
        invariant 0 <= n <= 16
        invariant forall k | 0 <= k < n :: block[k] == WordsOf(ops, bytes)[k]
      {
        Set(n, bytes[n * 4], bytes[n * 4 + 1], bytes[n * 4 + 2], bytes[n * 4 + 3]);
        n := n + 1;
      }
    }

    /** One turn of the loop of body, on one block. */
    method OneBlock(bytes: seq<Byte>, s: State<W>) returns (r: State<W>)
      requires block.Length == 16 && |bytes| == 64 && Linked()
      modifies block
      ensures r == f(s, bytes)
    {
      ReadBlock(bytes);
      var words := block[..];
      r := Round1(ops, s, words);
      r := Round2(ops, r, words);
      r := Round3(ops, r, words);
      r := Round4(ops, r, words);
      r := State(ops.add(r.a, s.a), ops.add(r.b, s.b), ops.add(r.c, s.c), ops.add(r.d, s.d));
      assert r == FastBlock(ops, s, bytes);
    }

    /** body: at least one block of 64 bytes. */
    method Body(data: seq<Byte>)
      requires block.Length == 16 && 0 < |data| && |data| % 64 == 0 && Linked()
      modifies this`a, this`b, this`c, this`d, block
      ensures Registers() == FoldBlocks(f, old(Registers()), data)
    {
      ghost var start := Registers();
      var s := State(a, b, c, d);
      var ptr := 0;
      while ptr < |data|
        invariant 0 <= ptr <= |data| && ptr % 64 == 0
        invariant s == FoldBlocks(f, start, data[..ptr])
      {
        s := OneBlock(data[ptr..ptr + 64], s);
        FoldNext(f, start, data, ptr);
        ptr := ptr + 64;
      }
      assert data[..ptr] == data;
      a, b, c, d := s.a, s.b, s.c, s.d;
    }

    /** memcpy into the buffer. */
    method Copy(at: nat, data: seq<Byte>)
      requires at + |data| <= buffer.Length
      modifies buffer
      ensures buffer[..at + |data|] == old(buffer[..at]) + data
      ensures forall j | at + |data| <= j < buffer.Length :: buffer[j] == old(buffer[j])
    {
      var k := 0;
      while k < |data|
        invariant 0 <= k <= |data|
        invariant buffer[..at + k] == old(buffer[..at]) + data[..k]
        invariant forall j | at + k <= j < buffer.Length :: buffer[j] == old(buffer[j])
      {
        buffer[at + k] := data[k];
        k := k + 1;
      }
      assert data[..k] == data;
    }

    /** The carry test of MD5_Update finds the carry of the low counter. */
    static lemma Carried(lo0: nat, n: nat, lo1: nat)
      requires lo0 < 0x2000_0000 && lo1 == (lo0 + n) % 0x2000_0000
      ensures lo0 + n == lo1 + 0x2000_0000 * ((if lo1 < lo0 then 1 else 0) + n / 0x2000_0000)
    {
    }

    /** Counting modulo `wrap` is counting modulo 2^32 in the low bits. */
    static lemma WrapKeeps(x: nat, wrap: nat)
      requires wrap > 0 && wrap % TWO_32 == 0
      ensures x % wrap % TWO_32 == x % TWO_32
    {
      var q, r, m := x / wrap, x % wrap, wrap / TWO_32;
      assert x == wrap * q + r && wrap == TWO_32 * m;
      assert wrap * q == TWO_32 * (m * q);
      ModMultiple(m * q, r);
    }

    static lemma ModMultiple(t: int, r: int)
      ensures (TWO_32 * t + r) % TWO_32 == r % TWO_32
    {
    }

    static lemma ModSum(x: nat, y: nat, k: nat)
      requires x % TWO_32 == y % TWO_32
      ensures (x + k) % TWO_32 == (y + k) % TWO_32
    {
    }

    static lemma Wrapped(h0: nat, high: nat, k: nat, h1: nat, wrap: nat)
      requires wrap > 0 && wrap % TWO_32 == 0 && h0 % TWO_32 == high % TWO_32 && h1 == (h0 + k) % wrap
      ensures h1 % TWO_32 == (high + k) % TWO_32
    {
      WrapKeeps(h0 + k, wrap);
      ModSum(h0, high, k);
    }

    /** The counters after `n` more bytes: the low one modulo 2^29, its carry and the rest into the high one. */
    method Count(n: nat) returns (savedLo: nat)
      requires wrap > 0 && wrap % TWO_32 == 0 && lo < 0x2000_0000 && hi % TWO_32 == high % TWO_32
      modifies this`lo, this`hi, this`high
      ensures savedLo == old(lo) && lo < 0x2000_0000 && hi % TWO_32 == high % TWO_32
      ensures lo + 0x2000_0000 * high == old(lo) + 0x2000_0000 * old(high) + n
    {
      savedLo := lo;
      lo := (savedLo + n) % 0x2000_0000;
      Carried(savedLo, n, lo);
      if lo < savedLo {
        Wrapped(hi, high, 1, (hi + 1) % wrap, wrap);
        hi, high := (hi + 1) % wrap, high + 1;
      }
      var k := n / 0x2000_0000;
      Wrapped(hi, high, k, (hi + k) % wrap, wrap);
      hi, high := (hi + k) % wrap, high + k;
    }

    /** The low counter tells how much of the buffer is in use. */
    static lemma Used(n: nat, lo: nat, high: nat, whole: nat)
      requires n == lo + 0x2000_0000 * high && whole % 64 == 0 && whole <= n < whole + 64
      ensures lo % 64 == n - whole
    {
    }

    /** body on the next bytes of the message. */
    method Absorb(data: seq<Byte>)
      requires block.Length == 16 && Linked() && Folded()
      requires 0 < |data| && |data| % 64 == 0 && whole + |data| <= |fed| && fed[whole..whole + |data|] == data
      modifies this`a, this`b, this`c, this`d, this`whole, block
      ensures Folded() && whole == old(whole) + |data|
    {
      Body(data);
      FoldMore(f, InitialState(ops), fed, whole, data);
      whole := whole + |data|;
    }

    static lemma Extended(m: seq<Byte>, data: seq<Byte>, k: nat)
      requires k <= |m|
      ensures (m + data)[..k] == m[..k] && (m + data)[k..] == m[k..] + data
    {
    }

    static lemma Filled(m: seq<Byte>, data: seq<Byte>, k: nat, n: nat)
      requires k <= |m| && n <= |data| && |m| - k + n == 64
      ensures (m + data)[k..k + 64] == m[k..] + data[..n] && (m + data)[k + 64..] == data[n..]
    {
    }

    /** MD5_Update. */
    method Update(data: seq<Byte>)
      requires Valid() && Linked()
      modifies this, buffer, block
      ensures Valid() && Linked()
      ensures fed == old(fed) + data
    {
      Used(|fed|, lo, high, whole);
      var savedLo := Count(|data|);
      var used, size := savedLo % 64, |data|;
      var from := 0;
      fed := fed + data;
      Extended(old(fed), data, whole);
      if used > 0 {
        var available := 64 - used;
        if size < available {
          Copy(used, data);
          return;
        }
        Filled(old(fed), data, whole, available);
        Copy(used, data[..available]);
        Absorb(buffer[..]);
        from, size := available, size - available;
      }
      Tail(data, from);
    }

    /** The rest of MD5_Update: the complete blocks of what is left, and a copy of the last bytes. */
    method Tail(data: seq<Byte>, from: nat)
      requires Sized() && Linked() && Folded() && from <= |data| && fed[whole..] == data[from..]
      modifies this`a, this`b, this`c, this`d, this`whole, block, buffer
      ensures Folded() && |fed| < whole + 64 && buffer[..|fed| - whole] == fed[whole..]
    {
      var rest := data[from..];
      if |rest| >= 64 {
        var n := |rest| - |rest| % 64;
        Absorb(rest[..n]);
        rest := rest[n..];
      }
      Copy(0, rest);
    }

    /** memset of the buffer to zero. */
    method Clear(at: nat, n: nat)
      requires at + n <= buffer.Length
      modifies buffer
      ensures buffer[..at + n] == old(buffer[..at]) + Zeros(n)
      ensures forall j | at + n <= j < buffer.Length :: buffer[j] == old(buffer[j])
    {
      var k := 0;
      while k < n
        invariant 0 <= k <= n
        invariant buffer[..at + k] == old(buffer[..at]) + Zeros(k)
        invariant forall j | at + k <= j < buffer.Length :: buffer[j] == old(buffer[j])
      {
        buffer[at + k] := 0;
        k := k + 1;
      }
    }

    /** The macro OUT for a counter. */
    method OutNat(at: nat, n: nat)
      requires at + 4 <= buffer.Length
      modifies buffer
      ensures buffer[..at + 4] == old(buffer[..at]) + BytesOfNat(n) && buffer[at + 4..] == old(buffer[at + 4..])
    {
      buffer[at] := (n % 256) as Byte;
      buffer[at + 1] := (n / 0x100 % 256) as Byte;
      buffer[at + 2] := (n / 0x1_0000 % 256) as Byte;
      buffer[at + 3] := (n / 0x100_0000 % 256) as Byte;
      BytesAre(n);
    }

    static lemma BytesAre(n: nat)
      ensures BytesOfNat(n) ==
        [(n % 256) as Byte, (n / 0x100 % 256) as Byte, (n / 0x1_0000 % 256) as Byte, (n / 0x100_0000 % 256) as Byte]
    {
      Unfold(n);
      DivideTwice(n);
      DivideThrice(n);
    }

    /** The four bytes of a number depend on its low 32 bits only. */
    static lemma LowBytes(x: nat, y: nat)
      requires x % TWO_32 == y % TWO_32
      ensures BytesOfNat(x) == BytesOfNat(y)
    {
      SameBytes(x, x % TWO_32, x / TWO_32);
      SameBytes(y, x % TWO_32, y / TWO_32);
    }

    static lemma SameBytes(x: nat, r: nat, q: nat)
      requires x == TWO_32 * q + r
      ensures BytesOfNat(x) == BytesOfNat(r)
    {
      SameByte(x, r, 0x100_0000 * q);
      SameByte(x / 256, r / 256, 0x1_0000 * q);
      SameByte(x / 256 / 256, r / 256 / 256, 0x100 * q);
      SameByte(x / 256 / 256 / 256, r / 256 / 256 / 256, q);
      Unfold(x);
      Unfold(r);
    }

    static lemma SameByte(x: nat, r: nat, t: nat)
      requires x == r + 256 * t
      ensures ByteOfNat(x, 0) == ByteOfNat(r, 0) && x / 256 == r / 256 + t
    {
    }

    static lemma Unfold(n: nat)
      ensures ByteOfNat(n, 1) == ByteOfNat(n / 256, 0)
      ensures ByteOfNat(n, 2) == ByteOfNat(n / 256 / 256, 0)
      ensures ByteOfNat(n, 3) == ByteOfNat(n / 256 / 256 / 256, 0)
    {
      assert ByteOfNat(n, 2) == ByteOfNat(n / 256, 1);
      assert ByteOfNat(n, 3) == ByteOfNat(n / 256, 2) == ByteOfNat(n / 256 / 256, 1);
    }

    /** What MD5_Final writes after shifting the low counter is the bit count modulo 2^64. */
    static lemma LengthIs(n: nat, lo: nat, hi: nat, high: nat)
      requires lo < 0x2000_0000 && n == lo + 0x2000_0000 * high && hi % TWO_32 == high % TWO_32
      ensures LengthBytes(n) == BytesOfNat(8 * lo) + BytesOfNat(hi)
    {
      assert 8 * n == 8 * lo + TWO_32 * high && 8 * lo < TWO_32;
      LowBytes(hi, 8 * n / TWO_32 % TWO_32);
    }

    /** The zeros of the one-block and of the two-block case. */
    static lemma ZeroCountIs(n: nat, whole: nat)
      requires whole % 64 == 0 && whole <= n < whole + 64
      ensures ZeroCount(n) == if n - whole <= 55 then 55 - (n - whole) else 119 - (n - whole)
    {
    }

    /** The registers of a context and the fold of the program's own block function. */
    lemma FoldIsFast(data: seq<Byte>)
      requires Linked()
      ensures FoldBlocks(f, InitialState(ops), data) == FoldBlocks(FastBlockFunction(ops), InitialState(ops), data)
    {
      FoldMaps(FastBlockFunction(ops), f, (s: State<W>) => s, InitialState(ops), data);
    }

    /** The padded message from its last incomplete block: one block, or two when the first cannot hold the length. */
    static lemma PadEnd(m: seq<Byte>, k: nat)
      requires k % 64 == 0 && k <= |m| < k + 64
      ensures Pad(m)[..k] == m[..k]
      ensures |m| - k <= 55 ==> Pad(m)[k..] == m[k..] + [0x80] + Zeros(55 - (|m| - k)) + LengthBytes(|m|)
      ensures |m| - k > 55 ==> |Pad(m)| == k + 128
      ensures |m| - k > 55 ==> Pad(m)[k..k + 64] == m[k..] + [0x80] + Zeros(63 - (|m| - k))
      ensures |m| - k > 55 ==> Pad(m)[k + 64..] == Zeros(56) + LengthBytes(|m|)
    {
      ZeroCountIs(|m|, k);
    }

    /** The message and the padding up to the length. */
    method PadOut()
      requires Valid() && Linked()
      modifies this`a, this`b, this`c, this`d, this`whole, this`fed, block, buffer
      ensures Folded() && fed == Pad(old(fed)) && fed[whole..] == buffer[..56] + LengthBytes(|old(fed)|)
    {
      Used(|fed|, lo, high, whole);
      PadEnd(fed, whole);
      var used := lo % 64;
      buffer[used] := 0x80;
      used := used + 1;
      var available := 64 - used;
      assert buffer[..used] == old(fed)[whole..] + [0x80];
      fed := Pad(fed);
      if available < 8 {
        Clear(used, available);
        Absorb(buffer[..]);
        used, available := 0, 64;
      }
      Clear(used, available - 8);
    }

    /** The padding, the length and the last block. */
    method Finish()
      requires Valid() && Linked()
      modifies this`a, this`b, this`c, this`d, this`whole, this`fed, this`lo, block, buffer
      ensures Registers() == FoldBlocks(f, InitialState(ops), Pad(old(fed)))
    {
      ghost var m := fed;
      PadOut();
      OutLength(|m|);
      assert buffer[..] == fed[whole..whole + 64];
      Absorb(buffer[..]);
      assert fed[..whole] == fed;
    }

    /** The length in bits, in the last eight bytes. */
    method OutLength(ghost n: nat)
      requires Sized() && Counts(n)
      modifies this`lo, buffer
      ensures buffer[..] == old(buffer[..56]) + LengthBytes(n)
    {
      LengthIs(n, lo, hi, high);
      lo := 8 * lo;
      OutNat(56, lo);
      OutNat(60, hi);
    }

    lemma DigestIs(s: State<W>, m: seq<Byte>)
      requires Linked() && s == FoldBlocks(f, InitialState(ops), Pad(m))
      ensures StateBytes(ops, s) == FastDigest(ops, m)
    {
      FoldIsFast(Pad(m));
    }

    /** MD5_Final. */
    method Final(result: array<Byte>)
      requires Valid() && Linked() && 16 <= result.Length && result != buffer && (result as object) != block
      modifies this, buffer, block, result
      ensures result[..16] == StateBytes(ops, FoldBlocks(f, InitialState(ops), Pad(old(fed))))
      ensures forall j | 16 <= j < result.Length :: result[j] == old(result[j])
      ensures lo == 0 && hi == 0 && Registers() == State(ops.numeral(0), ops.numeral(0), ops.numeral(0), ops.numeral(0))
      ensures (forall k | 0 <= k < 64 :: buffer[k] == 0) && (forall k | 0 <= k < 16 :: block[k] == ops.numeral(0))
    {
      Finish();
      OutRegisters(result);
      Forget();
    }

    /** The macro OUT for the four registers. */
    method OutRegisters(result: array<Byte>)
      requires 16 <= result.Length
      modifies result
      ensures result[..16] == StateBytes(ops, Registers())
      ensures forall j | 16 <= j < result.Length :: result[j] == old(result[j])
    {
      Out(result, 0, a);
      assert result[..4] == BytesOf(ops, a);
      Out(result, 4, b);
      assert result[..8] == BytesOf(ops, a) + BytesOf(ops, b);
      Out(result, 8, c);
      assert result[..12] == BytesOf(ops, a) + BytesOf(ops, b) + BytesOf(ops, c);
      Out(result, 12, d);
    }

    /** The macro OUT for a register. */
    method Out(result: array<Byte>, at: nat, x: W)
      requires at + 4 <= result.Length
      modifies result
      ensures result[..at + 4] == old(result[..at]) + BytesOf(ops, x)
      ensures forall j | at + 4 <= j < result.Length :: result[j] == old(result[j])
    {
      result[at] := ops.toByte(x);
      result[at + 1] := ops.toByte(ops.shr(x, 8));
      result[at + 2] := ops.toByte(ops.shr(x, 16));
      result[at + 3] := ops.toByte(ops.shr(x, 24));
    }

    /** The last memset, of the whole context. */
    method Forget()
      requires buffer.Length == 64 && block.Length == 16
      modifies this`a, this`b, this`c, this`d, this`lo, this`hi, buffer, block
      ensures lo == 0 && hi == 0 && Registers() == State(ops.numeral(0), ops.numeral(0), ops.numeral(0), ops.numeral(0))
      ensures (forall k | 0 <= k < 64 :: buffer[k] == 0) && (forall k | 0 <= k < 16 :: block[k] == ops.numeral(0))
    {
      lo, hi := 0, 0;
      a, b, c, d := ops.numeral(0), ops.numeral(0), ops.numeral(0), ops.numeral(0);
      forall k | 0 <= k < 64 { buffer[k] := 0; }
      forall k | 0 <= k < 16 { block[k] := ops.numeral(0); }
    }

    /** The counters together hold the length modulo 2^61. */
    lemma CountModulo()
      requires Counts(|fed|)
      ensures (lo + 0x2000_0000 * hi) % 0x2000_0000_0000_0000 == |fed| % 0x2000_0000_0000_0000
    {
      SameTop(lo, hi, high);
    }

    static lemma SameTop(x: nat, h: nat, k: nat)
      requires h % TWO_32 == k % TWO_32
      ensures (x + 0x2000_0000 * h) % 0x2000_0000_0000_0000 == (x + 0x2000_0000 * k) % 0x2000_0000_0000_0000
    {
      var r, q, p := h % TWO_32, h / TWO_32, k / TWO_32;
      assert x + 0x2000_0000 * h == (x + 0x2000_0000 * r) + 0x2000_0000_0000_0000 * q;
      assert x + 0x2000_0000 * k == (x + 0x2000_0000 * r) + 0x2000_0000_0000_0000 * p;
      TopMultiple(x + 0x2000_0000 * r, q);
      TopMultiple(x + 0x2000_0000 * r, p);
    }

    static lemma TopMultiple(y: nat, q: nat)
      ensures (y + 0x2000_0000_0000_0000 * q) % 0x2000_0000_0000_0000 == y % 0x2000_0000_0000_0000
    {
    }
  }
  function Joined(pieces: seq<seq<Byte>>): seq<Byte> {
    if pieces == [] then [] else Joined(pieces[..|pieces| - 1]) + pieces[|pieces| - 1]
  }

  /** MD5_Init, one MD5_Update for each piece, and MD5_Final. */
  method HashPieces<W(!new)>(ops: WordOps<W>, wrap: nat, pieces: seq<seq<Byte>>) returns (result: array<Byte>)
    requires wrap > 0 && wrap % TWO_32 == 0
    ensures fresh(result) && result[..] == FastDigest(ops, Joined(pieces))
  {
    var ctx := new Context(ops, wrap);
    ctx.Init();
    var k := 0;
    while k < |pieces|
      invariant k <= |pieces| && ctx.Valid() && ctx.Linked() && ctx.ops == ops && ctx.fed == Joined(pieces[..k])
      invariant fresh(ctx) && fresh(ctx.buffer) && fresh(ctx.block)
    {
      assert pieces[..k + 1][..k] == pieces[..k];
      ctx.Update(pieces[k]);
      k := k + 1;
    }
    assert pieces[..k] == pieces;
    result := new Byte[16];
    ghost var s := FoldBlocks(ctx.f, InitialState(ops), Pad(Joined(pieces)));
    ctx.DigestIs(s, Joined(pieces));
    ctx.Final(result);
    assert result[..] == result[..16];
  }
}
