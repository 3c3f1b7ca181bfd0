/** 256-bit arithmetic (src/uint256.rs:210-398) and what it means in two's complement. */
module Words {
  import opened Avm
  import opened Machine

  const WORD: int := 0x1_0000000000000000_0000000000000000_0000000000000000_0000000000000000
  const HALF: int := 0x8000000000000000_0000000000000000_0000000000000000_0000000000000000

  type Word = n: nat | n < WORD witness 0

  /** Keccak-256 of two words, which the model leaves open. */
  type Hash2 = (Word, Word) -> Word

  // ----- the source's operations -----

  /** The low 256 bits. */
  function Trim(n: nat): (r: Word)
    ensures r == n % WORD
  {
    if n < WORD then n else n % WORD
  }

  function ToSigned(x: Word): int {
    if x < HALF then x else x - WORD
  }

  /** Truncating division and remainder, as on big integers. */
  function TruncDiv(a: int, b: int): int
    requires b != 0
  {
    if a >= 0 then (if b > 0 then a / b else -(a / -b))
    else (if b > 0 then -(-a / b) else -a / -b)
  }

  function TruncRem(a: int, b: int): int
    requires b != 0
  {
    if a >= 0 then (if b > 0 then a % b else a % -b)
    else -(if b > 0 then -a % b else -a % -b)
  }

  function Add(x: Word, y: Word): Word { Trim(x + y) }

  function CheckedSub(x: Word, y: Word): Option<Word> { if x < y then None else Some(Trim(x - y)) }

  function BitwiseNeg(x: Word): Word { WORD - 1 - x }

  function UnaryMinus(x: Word): Word { if x == HALF then x else Add(BitwiseNeg(x), 1) }

  function UncheckedSub(x: Word, y: Word): Word {
    if x < y then UnaryMinus(Trim(y - x)) else Trim(x - y)
  }

  function Mul(x: Word, y: Word): Word { Trim(x * y) }

  function Div(x: Word, y: Word): (r: Option<Word>)
    ensures r.Some? <==> y != 0
  {
    if y == 0 then None else (QuotientFits(x, y); Some(x / y))
  }

  function Modulo(x: Word, y: Word): Option<Word> { if y == 0 then None else Some(x % y) }

  lemma QuotientFits(a: nat, b: nat)
    requires b > 0
    ensures 0 <= a / b <= a
  {
    var q := a / b;
    assert a == b * q + a % b;
    ScaleUp(b, q);
  }

  lemma ScaleUp(b: nat, q: nat)
    requires b > 0
    ensures b * q >= q
  {
    assert b * q == (b - 1) * q + q;
  }

  function Times(a: nat, b: nat): nat { a * b }

  /** bigint_to_biguint, on the values it gets. */
  function FromSigned(s: int): Word
    requires -HALF <= s <= HALF
  {
    if s < 0 then s + WORD else s
  }

  lemma TruncDivFits(a: int, b: int)
    requires -HALF <= a < HALF && b != 0
    ensures -HALF <= TruncDiv(a, b) <= HALF
  {
    if b > 0 { QuotientFits(if a < 0 then -a else a, b); } else { QuotientFits(if a < 0 then -a else a, -b); }
  }

  lemma TruncRemFits(a: int, b: int)
    requires -HALF <= a < HALF && -HALF <= b < HALF && b != 0
    ensures -HALF < TruncRem(a, b) < HALF
  {
  }

  function Sdiv(x: Word, y: Word): Option<Word> {
    if y == 0 then None
    else
      TruncDivFits(ToSigned(x), ToSigned(y));
      Some(FromSigned(TruncDiv(ToSigned(x), ToSigned(y))))
  }

  function Smodulo(x: Word, y: Word): Option<Word> {
    if y == 0 then None
    else
      TruncRemFits(ToSigned(x), ToSigned(y));
      Some(FromSigned(TruncRem(ToSigned(x), ToSigned(y))))
  }

  predicate SLess(x: Word, y: Word) { ToSigned(x) < ToSigned(y) }

  function Pow2(n: nat): (p: nat)
    ensures p >= 1
  {
    if n == 0 then 1 else 2 * Pow2(n - 1)
  }

  function ShiftLeft(x: Word, n: nat): Word { if n >= 256 then 0 else Trim(Times(x, Pow2(n))) }

  function ShiftRight(x: Word, n: nat): Word {
    QuotientFits(x, Pow2(n));
    x / Pow2(n)
  }

  function ShiftArith(x: Word, raw: nat): Word {
    var n := if raw > 256 then 256 else raw;
    QuotientFits(x, Pow2(n));
    Trim(x / Pow2(n) + (if x >= HALF then Times(WORD - 1, Pow2(256 - n)) else 0))
  }

  /** Bitwise operators, bit by bit. */
  function Bits(f: (nat, nat) -> nat, x: nat, y: nat): nat {
    if x == 0 && y == 0 then 0 else f(x % 2, y % 2) % 2 + 2 * Bits(f, x / 2, y / 2)
  }

  const AND: (nat, nat) -> nat := (a, b) => if a == 1 && b == 1 then 1 else 0
  const OR: (nat, nat) -> nat := (a, b) => if a == 1 || b == 1 then 1 else 0
  const XOR: (nat, nat) -> nat := (a, b) => if a != b then 1 else 0

  lemma {:induction false} BitsFit(f: (nat, nat) -> nat, x: nat, y: nat, n: nat)
    requires x < Pow2(n) && y < Pow2(n)
    ensures Bits(f, x, y) < Pow2(n)
    decreases n
  {
    if x != 0 || y != 0 { BitsFit(f, x / 2, y / 2, n - 1); }
  }

  lemma PowIsWord(n: nat)
    requires n == 256
    ensures Pow2(n) == WORD
  {
    var a := n / 32;
    PowEight(a);
    Doubling(a, 0x100);
    Doubling(2 * a, 0x10000);
    Doubling(4 * a, 0x1_0000_0000);
    Doubling(8 * a, 0x1_0000000000000000);
    Doubling(16 * a, 0x1_0000000000000000_0000000000000000);
  }

  lemma PowEight(n: nat)
    requires n == 8
    ensures Pow2(n) == 0x100
  {
    assert Pow2(n - 8) == 1;
    assert Pow2(n - 6) == 4;
    assert Pow2(n - 4) == 16;
    assert Pow2(n - 2) == 64;
  }

  lemma Doubling(n: nat, p: nat)
    requires Pow2(n) == p
    ensures Pow2(2 * n) == p * p
  {
    PowAdd(n, n);
  }

  lemma {:induction false} PowAdd(a: nat, b: nat)
    ensures Pow2(a + b) == Pow2(a) * Pow2(b)
  {
    if a > 0 { PowAdd(a - 1, b); }
  }

  lemma BitwiseFits(f: (nat, nat) -> nat, x: Word, y: Word, n: nat)
    requires n == 256
    ensures Bits(f, x, y) < WORD
  {
    PowIsWord(n);
    BitsFit(f, x, y, n);
  }

  function Bitwise(f: (nat, nat) -> nat, x: Word, y: Word): Word {
    BitwiseFits(f, x, y, 256);
    Bits(f, x, y)
  }

  // ----- what they mean -----

  lemma SignedRoundTrip(x: Word)
    ensures -HALF <= ToSigned(x) < HALF && FromSigned(ToSigned(x)) == x
  {
  }

  lemma SignedFromRange(s: int)
    requires -HALF <= s < HALF
    ensures ToSigned(FromSigned(s)) == s
  {
  }

  /** Signed division truncates towards zero; the one quotient out of range wraps round to itself. */
  lemma SdivIsSigned(x: Word, y: Word)
    requires y != 0
    ensures var a, b := ToSigned(x), ToSigned(y);
            ToSigned(Sdiv(x, y).value) == if a == -HALF && b == -1 then -HALF else TruncDiv(a, b)
  {
    var a, b := ToSigned(x), ToSigned(y);
    TruncDivFits(a, b);
    if !(a == -HALF && b == -1) { QuotientSmall(a, b); }
  }

  lemma QuotientSmall(a: int, b: int)
    requires -HALF <= a < HALF && b != 0 && !(a == -HALF && b == -1)
    ensures -HALF <= TruncDiv(a, b) < HALF
  {
    var m, d := if a < 0 then -a else a, if b < 0 then -b else b;
    QuotientFits(m, d);
    if m == HALF && d > 1 { assert m / d < HALF by { HalfSplit(m, d); } }
  }

  lemma HalfSplit(m: nat, d: nat)
    requires d > 1 && m > 0
    ensures m / d < m
  {
    var q := m / d;
    assert m == d * q + m % d;
    if q >= m {
      assert d * q == (d - 1) * q + q;
      ScaleUp(d - 1, q);
    }
  }

  /** The signed remainder has the sign of the dividend and completes the quotient. */
  lemma SmoduloIsSigned(x: Word, y: Word)
    requires y != 0
    ensures var a, b, r := ToSigned(x), ToSigned(y), ToSigned(Smodulo(x, y).value);
            && r == TruncRem(a, b) && a == b * TruncDiv(a, b) + r
            && (if a >= 0 then 0 <= r else r <= 0)
            && (if b > 0 then -b < r < b else b < r < -b)
  {
    var a, b := ToSigned(x), ToSigned(y);
    TruncRemFits(a, b);
    DivMod(a, b);
  }

  lemma DivMod(a: int, b: int)
    requires b != 0
    ensures a == b * TruncDiv(a, b) + TruncRem(a, b)
  {
    var m, d := if a < 0 then -a else a, if b < 0 then -b else b;
    assert m == d * (m / d) + m % d;
  }

  /** Congruence modulo 2^256, with the multiple made explicit. */
  lemma SameWord(a: int, b: int, k: int)
    requires a == b + k * WORD
    ensures a % WORD == b % WORD
  {
    assert (b + k * WORD) % WORD == b % WORD by { AddMultiple(b, k); }
  }

  lemma AddMultiple(b: int, k: int)
    ensures (b + k * WORD) % WORD == b % WORD
  {
    var q, r := b / WORD, b % WORD;
    assert b + k * WORD == (q + k) * WORD + r;
    Unique(b + k * WORD, q + k, r);
  }

  lemma Unique(n: int, q: int, r: int)
    requires n == q * WORD + r && 0 <= r < WORD
    ensures n % WORD == r
  {
    var d := n / WORD - q;
    assert n == (n / WORD) * WORD + n % WORD;
    assert d * WORD == r - n % WORD;
  }

  function SignMultiple(x: Word): int { if x < HALF then 0 else -1 }

  lemma SignedIs(x: Word)
    ensures ToSigned(x) == x + SignMultiple(x) * WORD
  {
  }

  /** Addition, subtraction and multiplication serve signed and unsigned operands alike. */
  lemma AddIsSigned(x: Word, y: Word)
    ensures Add(x, y) == (ToSigned(x) + ToSigned(y)) % WORD
  {
    SameWord(ToSigned(x) + ToSigned(y), x + y, SignMultiple(x) + SignMultiple(y));
  }

  lemma UncheckedSubIsSigned(x: Word, y: Word)
    ensures UncheckedSub(x, y) == (x - y) % WORD == (ToSigned(x) - ToSigned(y)) % WORD
  {
    SameWord(ToSigned(x) - ToSigned(y), x - y, SignMultiple(x) - SignMultiple(y));
    if x < y { Unique(x - y, -1, WORD + x - y); }
  }

  lemma MulIsSigned(x: Word, y: Word)
    ensures Mul(x, y) == (ToSigned(x) * ToSigned(y)) % WORD
  {
    var i, j := SignMultiple(x), SignMultiple(y);
    SignedIs(x);
    SignedIs(y);
    var k := i * y + x * j + i * j * WORD;
    assert ToSigned(x) * ToSigned(y) == x * y + k * WORD by {
      assert (x + i * WORD) * (y + j * WORD) == x * y + i * WORD * y + x * (j * WORD) + i * WORD * (j * WORD);
    }
    SameWord(ToSigned(x) * ToSigned(y), x * y, k);
  }

  /** The arithmetic shift divides the signed value, rounding down, by whatever amount. */
  lemma ShiftArithIsSigned(x: Word, n: nat)
    ensures ToSigned(ShiftArith(x, n)) == ToSigned(x) / Pow2(n)
  {
    if n > 256 {
      ClampedShift(x, n, 256);
    } else {
      ShiftInRange(x, n);
    }
  }

  lemma ShiftInRange(x: Word, n: nat)
    requires n <= 256
    ensures ToSigned(ShiftArith(x, n)) == ToSigned(x) / Pow2(n)
  {
    var p, q := Pow2(n), Pow2(256 - n);
    PowSplit(n, 256);
    if x < HALF {
      QuotientFits(x, p);
    } else {
      FillBits(x, p, q);
    }
  }

  /** Shifting further than the width leaves the sign. */
  lemma ClampedShift(x: Word, n: nat, k: nat)
    requires n > k == 256
    ensures ToSigned(ShiftArith(x, n)) == ToSigned(x) / Pow2(n)
  {
    ShiftInRange(x, k);
    PowIsWord(k);
    PowIsBig(n, k);
    OnlySign(ToSigned(x), Pow2(k));
    OnlySign(ToSigned(x), Pow2(n));
  }

  lemma OnlySign(v: int, p: nat)
    requires -HALF <= v < HALF && WORD <= p
    ensures v / p == if v < 0 then -1 else 0
  {
    if v < 0 { QuotientUnique(v, p, -1, v + p); } else { QuotientUnique(v, p, 0, v); }
  }

  lemma PowSplit(n: nat, k: nat)
    requires n <= k == 256
    ensures Pow2(n) * Pow2(k - n) == WORD
  {
    PowIsWord(k);
    PowAdd(n, k - n);
  }

  lemma FillBits(x: Word, p: nat, q: nat)
    requires x >= HALF && p >= 1 && q >= 1 && p * q == WORD
    ensures (x / p + Times(WORD - 1, q)) % WORD == WORD + (x - WORD) / p && -HALF <= (x - WORD) / p < 0
  {
    var s := (x - WORD) / p;
    ShiftMultiple(x, p, q);
    assert s == x / p - q;
    SameWord(x / p + Times(WORD - 1, q), x / p - q, q);
    assert -HALF <= s < 0 by { NegativeQuotient(x - WORD, p); }
    Unique(x / p - q, -1, WORD + s);
  }

  lemma ShiftMultiple(x: int, p: nat, q: nat)
    requires p >= 1
    ensures (x - p * q) / p == x / p - q
  {
    var a, r := x / p, x % p;
    assert x - p * q == p * (a - q) + r;
    QuotientUnique(x - p * q, p, a - q, r);
  }

  lemma QuotientUnique(n: int, p: nat, a: int, r: int)
    requires p >= 1 && n == p * a + r && 0 <= r < p
    ensures n / p == a
  {
    var d := n / p - a;
    assert n == p * (n / p) + n % p;
    assert p * d == r - n % p;
    Scaled(p, d);
  }

  lemma Scaled(p: nat, d: int)
    requires p >= 1
    ensures d >= 1 ==> p * d >= p
    ensures d >= 0 ==> p * d >= 0
    ensures d <= -1 ==> p * d <= d && p * d + p <= 0
  {
    if d >= 1 { ScaleUp(d, p); }
    if d <= -1 {
      ScaleUp(p, -d);
      ScaleUp(-d, p);
    }
  }

  lemma NegativeQuotient(n: int, p: nat)
    requires p >= 1 && -HALF <= n < 0
    ensures -HALF <= n / p < 0
  {
    var d := n / p;
    assert n == p * d + n % p;
    Scaled(p, d);
    if d <= -1 { FloorLow(n, p, d); }
  }

  lemma FloorLow(n: int, p: nat, d: int)
    requires p >= 1 && d <= -1 && n == p * d + n % p && 0 <= n % p < p
    ensures n <= d
  {
    assert p * d == d + (p - 1) * d;
    assert (p - 1) * d + (p - 1) <= 0 by { if p > 1 { Scaled(p - 1, d); } }
  }

  // ----- the emulator's opcodes -----

  function Flag(b: bool): nat { if b then 1 else 0 }

  /** What the opcodes compute from the top of the stack and the value below it
      (src/run/emulator.rs:1625-1880); None is a fault, or an opcode outside this model. */
  function RunOp(h: Hash2, op: BinOp, x: nat, y: nat): Option<nat> {
    if x >= WORD || y >= WORD then None
    else
      match op
      case Add => Some(Add(x, y))
      case Sub => Some(UncheckedSub(x, y))
      case Mul => Some(Mul(x, y))
      case Div => Div(x, y)
      case Mod => Modulo(x, y)
      case Sdiv => Sdiv(x, y)
      case Smod => Smodulo(x, y)
      case LessThan => Some(Flag(x < y))
      case GreaterThan => Some(Flag(x > y))
      case SLessThan => Some(Flag(SLess(x, y)))
      case SGreaterThan => Some(Flag(SLess(y, x)))
      case BitwiseAnd => Some(Bitwise(AND, x, y))
      case BitwiseOr => Some(Bitwise(OR, x, y))
      case BitwiseXor => Some(Bitwise(XOR, x, y))
      case ShiftLeft => Some(if x < USIZE_LIMIT then ShiftLeft(y, x) else 0)
      case ShiftRight => Some(if x < USIZE_LIMIT then ShiftRight(y, x) else 0)
      case ShiftArith => Some(if x < USIZE_LIMIT then ShiftArith(y, x) else 0)
      case EthHash2 => Some(h(x, y))
      case _ => None
  }

  /** The opcode, unlike the function, does not keep the sign of a negative value that is shifted by
      more than a usize. */
  lemma ShiftArithOpcode(h: Hash2, n: Word, x: Word)
    ensures RunOp(h, BinOp.ShiftArith, n, x).Some?
    ensures ToSigned(RunOp(h, BinOp.ShiftArith, n, x).value) == ToSigned(x) / Pow2(n)
            <==> !(ToSigned(x) < 0 && n >= USIZE_LIMIT)
  {
    ShiftArithIsSigned(x, n);
    if n >= USIZE_LIMIT {
      PowIsBig(n, 256);
      OnlySign(ToSigned(x), Pow2(n));
    }
  }

  lemma PowIsBig(n: nat, k: nat)
    requires n >= k == 256
    ensures Pow2(n) >= WORD
  {
    PowIsWord(k);
    PowAdd(k, n - k);
    ScaleUp(Pow2(n - k), WORD);
  }

  function RunUnary(op: UnOp, x: nat): Option<nat> {
    if x < WORD then Some(BitwiseNeg(x)) else None
  }

  /** The machine with these operations. */
  function Emulator(h: Hash2, strict: set<nat>, symbolic: bool): Isa {
    Isa((op: UnOp, x: nat) => RunUnary(op, x), (op: BinOp, x: nat, y: nat) => RunOp(h, op, x, y), strict, symbolic)
  }
}
