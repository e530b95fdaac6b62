/** Comparison lowering: the flags of cmp, the condition codes, and why they agree
    with the IR comparisons at every operand width. */
module Conditions {
  import opened Ir

  /** The status flags that condition codes read. */
  datatype Flags = Flags(zf: bool, sf: bool, cf: bool, of: bool)

  /** Condition code suffixes printed by cond_inst. */
  datatype Code = E | NE | L | G | LE | GE | B | A | BE | AE

  function CondInst(t: IcmpType): Code {
    match t
    case Eq => E
    case Neq => NE
    case Slt => L
    case Sgt => G
    case Sle => LE
    case Sge => GE
    case Ult => B
    case Ugt => A
    case Ule => BE
    case Uge => AE
  }

  /** Intel 64 and IA-32 SDM, Volume 1, Appendix B. */
  predicate Holds(c: Code, f: Flags) {
    match c
    case E => f.zf
    case NE => !f.zf
    case L => f.sf != f.of
    case G => !f.zf && f.sf == f.of
    case LE => f.zf || f.sf != f.of
    case GE => f.sf == f.of
    case B => f.cf
    case A => !f.cf && !f.zf
    case BE => f.cf || f.zf
    case AE => !f.cf
  }

  /** Two's complement value of a pattern of a width whose sign bit weighs half. */
  function Signed(half: nat, x: nat): int {
    if x < half then x else x - 2 * half
  }

  /** Flags of cmp a, b: those of the subtraction a - b at that width. */
  function CmpFlags(half: nat, a: nat, b: nat): Flags {
    var diff := if a >= b then a - b else a - b + 2 * half;
    var exact := Signed(half, a) - Signed(half, b);
    Flags(diff == 0, half <= diff, a < b, exact + half < 0 || half <= exact)
  }

  /** The bit encoding of a comparison: is_signed, is_greater, is_equal, is_less. */
  function Encoding(t: IcmpType): (bool, bool, bool, bool) {
    match t
    case Eq  => (false, false, true, false)
    case Neq => (false, true, false, true)
    case Slt => (true, false, false, true)
    case Sgt => (true, true, false, false)
    case Sle => (true, false, true, true)
    case Sge => (true, true, true, false)
    case Ult => (false, false, false, true)
    case Ugt => (false, true, false, false)
    case Ule => (false, false, true, true)
    case Uge => (false, true, true, false)
  }

  /** The IR relation on two patterns, read off the encoding. */
  predicate Relation(t: IcmpType, half: nat, a: nat, b: nat) {
    var (signed, greater, equal, less) := Encoding(t);
    var x, y := if signed then Signed(half, a) else a, if signed then Signed(half, b) else b;
    if x < y then less else if x == y then equal else greater
  }

  function Invert(t: IcmpType): IcmpType {
    match t
    case Eq => Neq
    case Neq => Eq
    case Slt => Sge
    case Sgt => Sle
    case Sle => Sgt
    case Sge => Slt
    case Ult => Uge
    case Ugt => Ule
    case Ule => Ugt
    case Uge => Ult
  }

  function Pow2(n: nat): (p: nat)
    ensures p > 0
  {
    if n == 0 then 1 else 2 * Pow2(n - 1)
  }

  // What the definitions compute, for two's complement integers

  /** The integer that a pattern of w bits stands for in two's complement. */
  ghost predicate StandsFor(w: nat, pattern: nat, n: int)
    requires w > 0
  {
    0 - Pow2(w - 1) <= n < Pow2(w - 1) && exists k: int :: n - pattern == k * Pow2(w)
  }

  lemma Multiple(k: int, m: nat)
    ensures k > 0 ==> k * m >= m
    ensures k < 0 ==> k * m <= 0 - m
  {
    if k > 0 {
      assert (k - 1) * m >= 0;
    } else if k < 0 {
      assert (-1 - k) * m >= 0;
    }
  }

  lemma NegatedModulo(m: nat)
    requires m > 0
    ensures 0 % m == 0 && (0 - m) % m == 0
  {
    assert (0 - m) / m == -1 && (0 - m) % m == (0 - m) - (-1) * m;
  }

  /** Two's complement: the value of a pattern is in range and differs from it by a multiple of
      the modulus, and it is the one integer that does. */
  lemma SignedIsTwosComplement(w: nat, x: nat)
    requires w > 0 && x < Pow2(w)
    ensures var half := Pow2(w - 1); 0 - half <= Signed(half, x) < half && (Signed(half, x) - x) % (2 * half) == 0
    ensures forall n: int :: StandsFor(w, x, n) <==> n == Signed(Pow2(w - 1), x)
  {
    var half, v := Pow2(w - 1), Signed(Pow2(w - 1), x);
    var j := if x < half then 0 else -1;
    assert v - x == j * Pow2(w);
    NegatedModulo(Pow2(w));
    forall n: int | StandsFor(w, x, n) ensures n == v {
      var k: int :| n - x == k * Pow2(w);
      assert n - v == (k - j) * Pow2(w);
      Multiple(k - j, Pow2(w));
    }
  }

  /** The flags after cmp of patterns that stand for n and k: equality, the sign of the
      difference that fits w bits, the order of the patterns, and whether the exact difference
      is out of range. */
  lemma FlagsOfDifference(w: nat, a: nat, b: nat, n: int, k: int)
    requires w > 0 && a < Pow2(w) && b < Pow2(w) && StandsFor(w, a, n) && StandsFor(w, b, k)
    ensures var f := CmpFlags(Pow2(w - 1), a, b);
            (f.zf <==> n == k) && (f.cf <==> a < b) && (f.of <==> !(0 - Pow2(w - 1) <= n - k < Pow2(w - 1))) &&
            (f.sf <==> if f.of then n - k >= 0 else n - k < 0)
  {
    SignedIsTwosComplement(w, a);
    SignedIsTwosComplement(w, b);
  }

  /** The meaning of every comparison, on the integers that patterns stand for: equality, the
      order of the signed integers, and the order of the patterns. */
  lemma RelationsMean(w: nat, a: nat, b: nat, n: int, k: int)
    requires w > 0 && a < Pow2(w) && b < Pow2(w) && StandsFor(w, a, n) && StandsFor(w, b, k)
    ensures var half := Pow2(w - 1);
            (Relation(Eq, half, a, b) <==> n == k) && (Relation(Neq, half, a, b) <==> n != k) &&
            (Relation(Slt, half, a, b) <==> n < k) && (Relation(Sgt, half, a, b) <==> n > k) &&
            (Relation(Sle, half, a, b) <==> n <= k) && (Relation(Sge, half, a, b) <==> n >= k) &&
            (Relation(Ult, half, a, b) <==> a < b) && (Relation(Ugt, half, a, b) <==> a > b) &&
            (Relation(Ule, half, a, b) <==> a <= b) && (Relation(Uge, half, a, b) <==> a >= b)
  {
    SignedIsTwosComplement(w, a);
    SignedIsTwosComplement(w, b);
  }

  /** The printed condition holds on the flags of cmp exactly when the IR comparison
      holds, whatever the weight of the sign bit. */
  lemma CompareByHalf(t: IcmpType, half: nat, a: nat, b: nat)
    requires a < 2 * half && b < 2 * half
    ensures Holds(CondInst(t), CmpFlags(half, a, b)) <==> Relation(t, half, a, b)
  {
  }

  /** The same at every bit width w, on all w-bit operands. */
  lemma CompareLoweringCorrect(t: IcmpType, w: nat, a: nat, b: nat)
    requires w > 0 && a < Pow2(w) && b < Pow2(w)
    ensures Holds(CondInst(t), CmpFlags(Pow2(w - 1), a, b)) <==> Relation(t, Pow2(w - 1), a, b)
  {
    CompareByHalf(t, Pow2(w - 1), a, b);
  }

  /** Inverting keeps the signedness bit and flips the three outcome bits. */
  lemma InvertEncoding(t: IcmpType)
    ensures var (signed, greater, equal, less) := Encoding(t);
            Encoding(Invert(t)) == (signed, !greater, !equal, !less)
  {
  }

  /** Inversion complements a condition on every flag setting. */
  lemma InvertComplementsFlags(t: IcmpType, f: Flags)
    ensures Holds(CondInst(Invert(t)), f) <==> !Holds(CondInst(t), f)
  {
  }

  /** Inversion complements the IR relation and the printed condition after cmp at
      every width, and inverting twice changes nothing. */
  lemma InvertComplements(t: IcmpType, w: nat, a: nat, b: nat)
    requires w > 0 && a < Pow2(w) && b < Pow2(w)
    ensures Relation(Invert(t), Pow2(w - 1), a, b) <==> !Relation(t, Pow2(w - 1), a, b)
    ensures Holds(CondInst(Invert(t)), CmpFlags(Pow2(w - 1), a, b)) <==> !Relation(t, Pow2(w - 1), a, b)
    ensures Invert(Invert(t)) == t
  {
    InvertEncoding(t);
    InvertComplementsFlags(t, CmpFlags(Pow2(w - 1), a, b));
    CompareLoweringCorrect(t, w, a, b);
  }
}
