/**
 gpcm/ecdsa.go, field part: 30-byte big-endian elements changed in place, tied to the
 ring of module BinaryField.  A byte is the string of its eight bits, lowest first;
 `Low` reads the 233 coefficients out of the bytes.
 */
module FieldBytes {
  import opened BinaryField

  // ---------- Bytes

  type Byte = b: seq<bool> | |b| == 8 witness seq(8, _ => false)

  /** The byte with the given value, and the value of a byte. */
  function Lit(n: nat): Byte {
    [n % 2 == 1, n / 2 % 2 == 1, n / 4 % 2 == 1, n / 8 % 2 == 1, n / 16 % 2 == 1, n / 32 % 2 == 1, n / 64 % 2 == 1, n / 128 % 2 == 1]
  }

  function Value(b: Byte): nat {
    (if b[0] then 1 else 0) + (if b[1] then 2 else 0) + (if b[2] then 4 else 0) + (if b[3] then 8 else 0)
    + (if b[4] then 16 else 0) + (if b[5] then 32 else 0) + (if b[6] then 64 else 0) + (if b[7] then 128 else 0)
  }

  function Xor(x: Byte, y: Byte): Byte {
    seq(8, k requires 0 <= k < 8 => x[k] != y[k])
  }

  function And(x: Byte, y: Byte): Byte {
    seq(8, k requires 0 <= k < 8 => x[k] && y[k])
  }

  function Shl(x: Byte, n: nat): Byte {
    seq(8, k requires 0 <= k < 8 => k >= n && x[k - n])
  }

  function Shr(x: Byte, n: nat): Byte {
    seq(8, k requires 0 <= k < 8 => k + n < 8 && x[k + n])
  }

  // ---------- Bits of a byte string

  function AllBits(d: seq<Byte>): (s: seq<bool>)
    ensures |s| == 8 * |d|
  {
    if d == [] then [] else AllBits(d[1..]) + d[0]
  }

  /** The low n bits of a big-endian byte string. */
  function Bits(d: seq<Byte>, n: nat): (s: seq<bool>)
    requires n <= 8 * |d|
    ensures |s| == n
  {
    AllBits(d)[..n]
  }

  lemma {:induction false} AllBitsAt(d: seq<Byte>)
    ensures forall e :: 0 <= e < 8 * |d| ==> AllBits(d)[e] == d[|d| - 1 - e / 8][e % 8]
  {
    if d != [] {
      AllBitsAt(d[1..]);
      forall e | 0 <= e < 8 * |d|
        ensures AllBits(d)[e] == d[|d| - 1 - e / 8][e % 8]
      {
        if e < 8 * |d[1..]| {
          assert AllBits(d)[e] == AllBits(d[1..])[e];
          assert d[1..][|d| - 2 - e / 8] == d[|d| - 1 - e / 8];
        } else {
          assert e / 8 == |d| - 1 && e % 8 == e - 8 * |d[1..]|;
        }
      }
    }
  }

  lemma BitsAt(d: seq<Byte>, n: nat)
    requires n <= 8 * |d|
    ensures forall e :: 0 <= e < n ==> Bits(d, n)[e] == d[|d| - 1 - e / 8][e % 8]
  {
    AllBitsAt(d);
  }

  function Low(d: seq<Byte>): Elt
    requires |d| == 30
  {
    Bits(d, DEGREE)
  }

  /** Top byte at most 1. */
  predicate Reduced(d: seq<Byte>) {
    |d| == 30 && forall k :: 1 <= k < 8 ==> !d[0][k]
  }

  lemma ReducedTopByte(d: seq<Byte>)
    requires |d| == 30
    ensures Reduced(d) <==> Value(d[0]) <= 1
  {
    var b := d[0];
    if Value(b) <= 1 {
      assert !b[1] && !b[2] && !b[3] && !b[4] && !b[5] && !b[6] && !b[7];
    }
  }

  /** A reduced byte string is determined by the element it stands for. */
  lemma LowInjective(a: seq<Byte>, b: seq<Byte>)
    requires Reduced(a) && Reduced(b) && Low(a) == Low(b)
    ensures a == b
  {
    BitsAt(a, DEGREE);
    BitsAt(b, DEGREE);
    forall j | 0 <= j < 30
      ensures a[j] == b[j]
    {
      forall k | 0 <= k < 8
        ensures a[j][k] == b[j][k]
      {
        var e := 8 * (29 - j) + k;
        assert e / 8 == 29 - j && e % 8 == k;
        if e < DEGREE {
          assert Low(a)[e] == Low(b)[e];
        }
      }
    }
  }

  function ZeroBytes(n: nat): (s: seq<Byte>)
    ensures |s| == n
  {
    seq(n, _ => Lit(0))
  }

  lemma ZeroIsZero()
    ensures Reduced(ZeroBytes(30)) && Low(ZeroBytes(30)) == Zero()
  {
    assert Lit(0) == seq(8, _ => false);
    BitsAt(ZeroBytes(30), DEGREE);
  }

  // ---------- Zero test and addition

  method EltIsZero(d: seq<Byte>) returns (z: bool)
    requires |d| == 30
    ensures z <==> d == ZeroBytes(30)
    ensures Reduced(d) ==> (z <==> Low(d) == Zero())
  {
    ZeroIsZero();
    if Reduced(d) && Low(d) == Zero() {
      LowInjective(d, ZeroBytes(30));
    }
    for i := 0 to 30
      invariant forall j :: 0 <= j < i ==> d[j] == Lit(0)
    {
      if d[i] != Lit(0) {
        assert d != ZeroBytes(30);
        return false;
      }
    }
    return true;
  }

  method EltAdd(a: seq<Byte>, b: seq<Byte>) returns (d: seq<Byte>)
    requires |a| == |b| == 30
    ensures |d| == 30 && Low(d) == Add(Low(a), Low(b))
    ensures Reduced(a) && Reduced(b) ==> Reduced(d)
  {
    var out := new Byte[30];
    for i := 0 to 30
      invariant forall j :: 0 <= j < i ==> out[j] == Xor(a[j], b[j])
    {
      out[i] := Xor(a[i], b[i]);
    }
    d := out[..];
    LowOfXor(a, b, d);
  }

  lemma LowOfXor(a: seq<Byte>, b: seq<Byte>, d: seq<Byte>)
    requires |a| == |b| == |d| == 30
    requires forall j :: 0 <= j < 30 ==> d[j] == Xor(a[j], b[j])
    ensures Low(d) == Add(Low(a), Low(b))
  {
    BitsAt(a, DEGREE);
    BitsAt(b, DEGREE);
    BitsAt(d, DEGREE);
  }

  // ---------- Multiplication by t

  /** What the loop of eltMulX leaves in byte j, as a function of the bytes it read. */
  function ShiftedByte(s: seq<Byte>, j: nat): Byte
    requires |s| == 30 && j < 29
  {
    Xor(if j == 0 then Lit(0) else Shl(s[j], 1), Shr(s[j + 1], 7))
  }

  lemma LitBits()
    ensures Lit(0) == seq(8, _ => false)
    ensures Lit(1) == seq(8, i => i == 0)
  {
  }

  ghost predicate IsMulXOf(s: seq<Byte>, d: seq<Byte>)
    requires |s| == |d| == 30
  {
    && (forall j :: 0 <= j < 29 && j != 20 ==> d[j] == ShiftedByte(s, j))
    && d[20] == Xor(ShiftedByte(s, 20), Shl(And(s[0], Lit(1)), 2))
    && d[29] == Xor(Shl(s[29], 1), And(s[0], Lit(1)))
  }

  lemma MulXBit(s: seq<Byte>, d: seq<Byte>, j: nat, k: nat)
    requires |s| == |d| == 30 && IsMulXOf(s, d) && j < 30 && k < 8
    ensures d[j][k] == if k == 0 then (if j == 29 then s[0][0] else s[j + 1][7])
                       else if j == 0 then false
                       else (s[j][k - 1] != (j == 20 && k == 2 && s[0][0]))
  {
    LitBits();
    if j == 20 {
      assert d[20][k] == (ShiftedByte(s, 20)[k] != Shl(And(s[0], Lit(1)), 2)[k]);
    }
  }

  lemma MulXOnBytes(s: seq<Byte>, d: seq<Byte>)
    requires |s| == |d| == 30 && IsMulXOf(s, d)
    ensures Low(d) == MulX(Low(s)) && Reduced(d)
  {
    hide IsMulXOf;
    BitsAt(s, DEGREE);
    BitsAt(d, DEGREE);
    var p := Low(s);
    assert p[DEGREE - 1] == s[0][0];
    forall e | 0 <= e < DEGREE
      ensures Low(d)[e] == MulX(p)[e]
    {
      var j, k := 29 - e / 8, e % 8;
      assert e == 8 * (29 - j) + k;
      MulXBit(s, d, j, k);
      if k > 0 {
        assert (e - 1) / 8 == 29 - j && (e - 1) % 8 == k - 1;
        assert p[e - 1] == s[j][k - 1];
      } else if e > 0 {
        assert (e - 1) / 8 == 28 - j && (e - 1) % 8 == 7;
        assert p[e - 1] == s[j + 1][7];
      }
    }
    forall k | 1 <= k < 8
      ensures !d[0][k]
    {
      MulXBit(s, d, 0, k);
    }
  }

  /** In place: d may be the same array as a, as in every call of the source. */
  method EltMulX(d: array<Byte>, a: array<Byte>)
    requires d.Length == a.Length == 30
    modifies d
    ensures Low(d[..]) == MulX(Low(old(a[..])))
    ensures Reduced(d[..])
  {
    hide MulX, Bits, Low, Reduced, Shr, MaskOf, Lit, And, Value;
    ghost var s := a[..];
    var carry := And(a[0], Lit(1));
    var x := Lit(0);
    for i := 0 to 29
      invariant x == if i == 0 then Lit(0) else Shl(s[i], 1)
      invariant forall j :: i <= j < 30 ==> a[j] == s[j]
      invariant forall j :: 0 <= j < i ==> d[j] == ShiftedByte(s, j)
    {
      var y := a[i + 1];
      d[i] := Xor(x, Shr(y, 7));
      x := Shl(y, 1);
    }
    d[29] := Xor(x, carry);
    d[20] := Xor(d[20], Shl(carry, 2));
    MulXOnBytes(s, d[..]);
  }

  // ---------- Multiplication

  function MaskOf(k: nat): Byte {
    seq(8, i => i == k)
  }

  lemma MaskTests(x: Byte, k: nat)
    requires k < 8
    ensures And(x, MaskOf(k)) != Lit(0) <==> x[k]
    ensures k > 0 ==> Shr(MaskOf(k), 1) == MaskOf(k - 1) && MaskOf(k - 1) != Lit(0)
    ensures Shr(MaskOf(0), 1) == Lit(0) && Lit(0x80) == MaskOf(7) && Lit(1) == MaskOf(0)
  {
    assert And(x, MaskOf(k))[k] == x[k];
    assert k > 0 ==> MaskOf(k - 1)[k - 1];
  }

  lemma HornerStep(a: Elt, b: Elt, n: nat)
    requires n < DEGREE
    ensures Act(a[232 - n..], b) == if a[232 - n] then Add(MulX(Act(a[233 - n..], b)), b) else MulX(Act(a[233 - n..], b))
  {
    assert a[232 - n..][1..] == a[233 - n..];
    AddLaws(MulX(Act(a[233 - n..], b)), b, Zero());
  }

  /** Index and mask of coefficient 232 - n. */
  predicate AtCoefficient(i: int, mask: Byte, n: nat) {
    n < DEGREE ==> i == 29 - (232 - n) / 8 && mask == MaskOf((232 - n) % 8)
  }

  lemma FirstCoefficient()
    ensures AtCoefficient(0, Lit(1), 0)
  {
    MaskTests(Lit(1), 0);
  }

  lemma NextCoefficient(i: int, mask: Byte, n: nat)
    requires n < DEGREE && AtCoefficient(i, mask, n)
    ensures var mask' := Shr(mask, 1);
            if mask' == Lit(0) then AtCoefficient(i + 1, Lit(0x80), n + 1) else AtCoefficient(i, mask', n + 1)
  {
    var c := 232 - n;
    MaskTests(mask, c % 8);
    if n + 1 < DEGREE {
      if c % 8 == 0 {
        assert (c - 1) / 8 == c / 8 - 1 && (c - 1) % 8 == 7;
      } else {
        assert (c - 1) / 8 == c / 8 && (c - 1) % 8 == c % 8 - 1;
      }
    }
  }

  lemma CoefficientTest(a: seq<Byte>, i: int, mask: Byte, n: nat)
    requires |a| == 30 && n < DEGREE && AtCoefficient(i, mask, n)
    ensures 0 <= i < 30 && (And(a[i], mask) != Lit(0) <==> Low(a)[232 - n])
  {
    MaskTests(a[i], (232 - n) % 8);
    BitsAt(a, DEGREE);
  }

  /** The body of eltMul's loop up to the mask update: d := t*d, then + b when the coefficient is set. */
  method HornerRound(d: array<Byte>, add: bool, b: seq<Byte>) returns (d': array<Byte>)
    requires d.Length == |b| == 30
    modifies d
    ensures d'.Length == 30 && (d' == d || fresh(d'))
    ensures Low(d'[..]) == if add then Add(MulX(Low(old(d[..]))), Low(b)) else MulX(Low(old(d[..])))
    ensures Reduced(b) ==> Reduced(d'[..])
  {
    EltMulX(d, d);
    d' := d;
    if add {
      var sum := EltAdd(d[..], b);
      d' := new Byte[30](j requires 0 <= j < 30 => sum[j]);
      assert d'[..] == sum;
    }
  }

  /** Horner's rule from the top coefficient down; only the low 233 bits of either operand matter. */
  method EltMul(a: seq<Byte>, b: seq<Byte>) returns (r: seq<Byte>)
    requires |a| == |b| == 30
    ensures |r| == 30 && Low(r) == Mul(Low(a), Low(b))
    ensures Reduced(b) ==> Reduced(r)
  {
    hide MulX, Add, Bits, And, Low, Reduced, AtCoefficient, Shr, MaskOf, Lit;
    var d := new Byte[30](_ => Lit(0));
    assert d[..] == ZeroBytes(30);
    ZeroIsZero();
    var i := 0;
    var mask := Lit(1);
    FirstCoefficient();
    ghost var p, q := Low(a), Low(b);
    for n := 0 to 233
      invariant d.Length == 30 && fresh(d)
      invariant AtCoefficient(i, mask, n)
      invariant Low(d[..]) == Act(p[233 - n..], q)
      invariant Reduced(b) ==> Reduced(d[..])
    {
      CoefficientTest(a, i, mask, n);
      NextCoefficient(i, mask, n);
      d := HornerRound(d, And(a[i], mask) != Lit(0), b);
      HornerStep(p, q, n);
      mask := Shr(mask, 1);
      if mask == Lit(0) {
        mask := Lit(0x80);
        i := i + 1;
      }
    }
    assert p[0..] == p;
    r := d[..];
  }

  // ---------- Squaring through the spread table

  const SQUARE: seq<nat> := [0x00, 0x01, 0x04, 0x05, 0x10, 0x11, 0x14, 0x15, 0x40, 0x41, 0x44, 0x45, 0x50, 0x51, 0x54, 0x55]

  /** The value of the low four bits, and the table entry for it. */
  lemma NibbleBound(b: Byte)
    ensures Value(Shr(b, 4)) < 16 && Value(And(b, Lit(15))) < 16
  {
    var s, a := Shr(b, 4), And(b, Lit(15));
    assert !s[4] && !s[5] && !s[6] && !s[7];
    assert !a[4] && !a[5] && !a[6] && !a[7];
  }

  function Squared(nibble: Byte): Byte
    requires Value(nibble) < 16
  {
    Lit(SQUARE[Value(nibble)])
  }

  /** The table is the spread of the four bits of its index. */
  lemma SquareTable(n: Byte)
    requires forall k :: 4 <= k < 8 ==> !n[k]
    ensures Value(n) < 16
    ensures Squared(n) == [n[0], false, n[1], false, n[2], false, n[3], false]
  {
    assert !n[4] && !n[5] && !n[6] && !n[7];
    var v := Value(n);
    TableEntry(v);
    assert n[0] == (v % 2 == 1) && n[1] == (v / 2 % 2 == 1) && n[2] == (v / 4 % 2 == 1) && n[3] == (v / 8 % 2 == 1);
  }

  lemma TableEntry(v: nat)
    requires v < 16
    ensures Lit(SQUARE[v]) == [v % 2 == 1, false, v / 2 % 2 == 1, false, v / 4 % 2 == 1, false, v / 8 % 2 == 1, false]
  {
    if v < 4 {
      assert v == 0 || v == 1 || v == 2 || v == 3;
    } else if v < 8 {
      assert v == 4 || v == 5 || v == 6 || v == 7;
    } else {
      HighTableEntry(v);
    }
  }

  lemma HighTableEntry(v: nat)
    requires 8 <= v < 16
    ensures Lit(SQUARE[v]) == [v % 2 == 1, false, v / 2 % 2 == 1, false, v / 4 % 2 == 1, false, v / 8 % 2 == 1, false]
  {
    if v < 12 {
      assert v == 8 || v == 9 || v == 10 || v == 11;
    } else {
      assert v == 12 || v == 13 || v == 14 || v == 15;
    }
  }

  function SpreadHigh(b: Byte): Byte {
    [b[4], false, b[5], false, b[6], false, b[7], false]
  }

  function SpreadLow(b: Byte): Byte {
    [b[0], false, b[1], false, b[2], false, b[3], false]
  }

  lemma SquareNibbles(b: Byte)
    ensures Value(Shr(b, 4)) < 16 && Value(And(b, Lit(15))) < 16
    ensures Squared(Shr(b, 4)) == SpreadHigh(b) && Squared(And(b, Lit(15))) == SpreadLow(b)
  {
    NibbleBound(b);
    SquareTable(Shr(b, 4));
    SquareTable(And(b, Lit(15)));
  }

  lemma {:induction false} SpreadAt(p: seq<bool>)
    ensures |Spread(p)| == 2 * |p|
    ensures forall e :: 0 <= e < 2 * |p| ==> Spread(p)[e] == (e % 2 == 0 && p[e / 2])
  {
    if p != [] {
      SpreadAt(p[1..]);
      forall e | 0 <= e < 2 * |p|
        ensures Spread(p)[e] == (e % 2 == 0 && p[e / 2])
      {
        if e >= 2 {
          assert Spread(p)[e] == Spread(p[1..])[e - 2];
          assert (e - 2) / 2 == e / 2 - 1 && (e - 2) % 2 == e % 2;
        }
      }
    }
  }

  /** Coefficient e lies in the wide byte that spreads a nibble of byte 29 - e / 16. */
  lemma NibbleOf(e: nat)
    requires e < 480
    ensures e / 16 < 30 && e / 8 == 2 * (e / 16) + e / 8 % 2 && e % 8 / 2 < 4
    ensures e % 8 == 2 * (e % 8 / 2) + e % 2 && e / 2 == 8 * (e / 16) + 4 * (e / 8 % 2) + e % 8 / 2
    ensures e / 2 / 8 == e / 16 && e / 2 % 8 == 4 * (e / 8 % 2) + e % 8 / 2
  {
  }

  lemma WideIsSpread(a: seq<Byte>, d: seq<Byte>)
    requires |a| == 30 && |d| == 60
    requires forall i :: 0 <= i < 30 ==> d[2 * i] == SpreadHigh(a[i])
    requires forall i :: 0 <= i < 30 ==> d[2 * i + 1] == SpreadLow(a[i])
    ensures Bits(d, 480) == Spread(Bits(a, 240))
  {
    hide Bits, Spread;
    var p := Bits(a, 240);
    SpreadAt(p);
    BitsAt(a, 240);
    BitsAt(d, 480);
    forall e | 0 <= e < 480
      ensures Bits(d, 480)[e] == Spread(p)[e]
    {
      NibbleOf(e);
      SpreadByte(a, d, 29 - e / 16, e / 8 % 2, e % 8 / 2, e % 2);
      assert p[e / 2] == a[29 - e / 16][4 * (e / 8 % 2) + e % 8 / 2];
    }
  }

  /** Half 0 is the low nibble of a byte; odd places of its spread are empty. */
  lemma SpreadByte(a: seq<Byte>, d: seq<Byte>, i: nat, half: nat, h: nat, odd: nat)
    requires |a| == 30 && |d| == 60 && i < 30 && half < 2 && h < 4 && odd < 2
    requires d[2 * i] == SpreadHigh(a[i]) && d[2 * i + 1] == SpreadLow(a[i])
    ensures d[2 * i + 1 - half][2 * h + odd] == (odd == 0 && a[i][4 * half + h])
  {
    assert h == 0 || h == 1 || h == 2 || h == 3;
  }

  method EltSquareToWide(a: seq<Byte>) returns (wide: array<Byte>)
    requires |a| == 30
    ensures fresh(wide) && wide.Length == 60
    ensures Bits(wide[..], 480) == Spread(Bits(a, 240))
  {
    hide SpreadHigh, SpreadLow, Squared, Spread, Bits, Value, Lit, Shr, And;
    var d := new Byte[60];
    for i := 0 to 30
      invariant forall j :: 0 <= j < i ==> d[2 * j] == SpreadHigh(a[j])
      invariant forall j :: 0 <= j < i ==> d[2 * j + 1] == SpreadLow(a[j])
    {
      SquareNibbles(a[i]);
      d[2 * i] := Squared(Shr(a[i], 4));
      d[2 * i + 1] := Squared(And(a[i], Lit(15)));
    }
    WideIsSpread(a, d[..]);
    wide := d;
  }

  // ---------- Reduction of a double-width product

  /** top, read as a polynomial, placed at exponent s of an otherwise zero string of length n. */
  function Placed(top: seq<bool>, s: nat, n: nat): (r: seq<bool>)
    requires s + |top| <= n
    ensures |r| == n
  {
    seq(s, _ => false) + top + seq(n - s - |top|, _ => false)
  }

  lemma {:induction false} ActZeros(n: nat, b: Elt)
    ensures Act(seq(n, _ => false), b) == Zero()
  {
    if n > 0 {
      assert seq(n, _ => false)[1..] == seq(n - 1, _ => false);
      ActZeros(n - 1, b);
      MulXLinear(Zero(), Zero());
      AddLaws(Zero(), Zero(), Zero());
    }
  }

  lemma {:induction false} ShiftZero(k: nat)
    ensures Shift(k, Zero()) == Zero()
  {
    if k > 0 {
      ShiftZero(k - 1);
      MulXLinear(Zero(), Zero());
    }
  }

  lemma ActPlaced(top: seq<bool>, s: nat, n: nat, b: Elt)
    requires s + |top| <= n
    ensures Act(Placed(top, s, n), b) == Shift(s, Act(top, b))
  {
    var low, high := seq(s, _ => false), seq(n - s - |top|, _ => false);
    ActConcat(low + top, high, b);
    ActConcat(low, top, b);
    ActZeros(s, b);
    ActZeros(n - s - |top|, b);
    ShiftZero(|low + top|);
    AddLaws(Shift(s, Act(top, b)), Zero(), Zero());
  }

  /** Coefficient e of `top` placed from exponent s on. */
  predicate PlacedBit(top: seq<bool>, s: nat, e: int) {
    0 <= e - s < |top| && top[e - s]
  }

  lemma PlacedAt(top: seq<bool>, s: nat, n: nat)
    requires s + |top| <= n
    ensures |Placed(top, s, n)| == n && forall e :: 0 <= e < n ==> Placed(top, s, n)[e] == PlacedBit(top, s, e)
  {
  }

  lemma FoldedIs(low: seq<bool>, top: seq<bool>, folded: seq<bool>, s: nat, m: nat)
    requires |folded| == |low| && s + |top| <= |low| && m + |top| <= |low|
    requires forall e :: 0 <= e < |low| ==> folded[e] == ((low[e] != PlacedBit(top, s, e)) != PlacedBit(top, m, e))
    ensures folded == PolyAdd(PolyAdd(low, Placed(top, s, |low|)), Placed(top, m, |low|))
  {
    hide Placed, PlacedBit;
    PlacedAt(top, s, |low|);
    PlacedAt(top, m, |low|);
    var sum := PolyAdd(PolyAdd(low, Placed(top, s, |low|)), Placed(top, m, |low|));
    assert |sum| == |low| && forall e :: 0 <= e < |low| ==> sum[e] == folded[e];
  }

  /** Adding `top` at exponents s and s + 74 is adding it at s + 233. */
  lemma FoldedShift(low: Elt, t: Elt, s: nat)
    ensures Add(Add(low, Shift(s, t)), Shift(s + MIDDLE, t)) == Add(low, Shift(s + DEGREE, t))
  {
    hide Shift;
    TrinomialVanishes(t);
    ShiftAdd(s, DEGREE, t);
    ShiftAdd(s, MIDDLE, t);
    ShiftLinear(s, t, Shift(MIDDLE, t));
    AddLaws(low, Shift(s, t), Shift(s + MIDDLE, t));
  }

  /** Removing the coefficients `top` above exponent n and adding them back at n - 233 and n - 159. */
  lemma FoldTop(low: seq<bool>, top: seq<bool>, folded: seq<bool>, b: Elt)
    requires DEGREE <= |low| == |folded| && |top| <= DEGREE - MIDDLE
    requires forall e :: 0 <= e < |low| ==>
               folded[e] == ((low[e] != PlacedBit(top, |low| - DEGREE, e)) != PlacedBit(top, |low| - DEGREE + MIDDLE, e))
    ensures Act(folded, b) == Act(low + top, b)
  {
    hide Act, Shift, Placed, PlacedBit, PolyAdd;
    var n := |low|;
    var s: nat := n - DEGREE;
    FoldedIs(low, top, folded, s, s + MIDDLE);
    var one, two := Placed(top, s, n), Placed(top, s + MIDDLE, n);
    PlacedAt(top, s, n);
    PlacedAt(top, s + MIDDLE, n);
    SameLength(low, one);
    ActPolyAdd(PolyAdd(low, one), two, b);
    ActPolyAdd(low, one, b);
    ActPlaced(top, s, n, b);
    ActPlaced(top, s + MIDDLE, n, b);
    ActConcat(low, top, b);
    FoldedShift(Act(low, b), Act(top, b), s);
  }

  lemma SameLength(p: seq<bool>, q: seq<bool>)
    requires |p| == |q|
    ensures |PolyAdd(p, q)| == |p|
  {
  }

  /** One round of the loop: byte i of 60 is folded into bytes i+19, i+20, i+29 and i+30. */
  lemma ReduceByte(d: seq<Byte>, d': seq<Byte>, i: nat)
    requires |d| == |d'| == 60 && i < 30
    requires d'[i + 19] == Xor(d[i + 19], Shr(d[i], 7)) && d'[i + 20] == Xor(d[i + 20], Shl(d[i], 1))
    requires d'[i + 29] == Xor(d[i + 29], Shr(d[i], 1)) && d'[i + 30] == Xor(d[i + 30], Shl(d[i], 7))
    requires forall j :: i < j < 60 && j != i + 19 && j != i + 20 && j != i + 29 && j != i + 30 ==> d'[j] == d[j]
    ensures Act(Bits(d', 472 - 8 * i), One()) == Act(Bits(d, 480 - 8 * i), One())
  {
    hide Act;
    var n := 472 - 8 * i;
    var low, top, folded := Bits(d, n), d[i], Bits(d', n);
    BitsAt(d, n);
    BitsAt(d, n + 8);
    BitsAt(d', n);
    assert Bits(d, n + 8) == low + top by {
      forall e | 0 <= e < n + 8
        ensures Bits(d, n + 8)[e] == (low + top)[e]
      {
        if e >= n {
          assert e / 8 == 59 - i && e % 8 == e - n;
        }
      }
    }
    forall e | 0 <= e < n
      ensures folded[e] == ((low[e] != PlacedBit(top, n - DEGREE, e)) != PlacedBit(top, n - DEGREE + MIDDLE, e))
    {
      var q, k := e / 8, e % 8;
      assert e == 8 * q + k && i < 59 - q;
      assert n - DEGREE == 8 * (29 - i) + 7 && n - DEGREE + MIDDLE == 8 * (39 - i) + 1;
      assert folded[e] == d'[59 - q][k] && low[e] == d[59 - q][k];
    }
    FoldTop(low, top, folded, One());
  }

  /** The last seven overflowing bits, held in byte 30. */
  lemma ReduceLast(d: seq<Byte>, d': seq<Byte>, x: Byte)
    requires |d| == |d'| == 60 && x == And(d[30], Lit(0xfe))
    requires d'[49] == Xor(d[49], Shr(x, 7)) && d'[50] == Xor(d[50], Shl(x, 1)) && d'[59] == Xor(d[59], Shr(x, 1))
    requires d'[30] == And(d[30], Lit(1))
    requires forall j :: 30 < j < 60 && j != 49 && j != 50 && j != 59 ==> d'[j] == d[j]
    ensures Act(Bits(d', DEGREE), One()) == Act(Bits(d, 240), One())
  {
    hide Act;
    var low, top, folded := Bits(d, DEGREE), d[30][1..], Bits(d', DEGREE);
    BitsAt(d, DEGREE);
    BitsAt(d, 240);
    BitsAt(d', DEGREE);
    assert forall k :: 0 <= k < 8 ==> x[k] == (k > 0 && d[30][k]);
    assert Bits(d, 240) == low + top by {
      forall e | 0 <= e < 240
        ensures Bits(d, 240)[e] == (low + top)[e]
      {
        if e >= DEGREE {
          assert e / 8 == 29 && e % 8 == e - 232;
        }
      }
    }
    forall e | 0 <= e < DEGREE
      ensures folded[e] == ((low[e] != PlacedBit(top, 0, e)) != PlacedBit(top, MIDDLE, e))
    {
      var q, k := e / 8, e % 8;
      assert e == 8 * q + k;
      assert folded[e] == d'[59 - q][k] && low[e] == d[59 - q][k];
    }
    FoldTop(low, top, folded, One());
  }

  method WideReduce(d: array<Byte>)
    requires d.Length == 60
    modifies d
    ensures Bits(d[..], DEGREE) == Act(Bits(old(d[..]), 480), One())
    ensures forall k :: 1 <= k < 8 ==> !d[30][k]
  {
    hide Act;
    for i := 0 to 30
      invariant Act(Bits(d[..], 480 - 8 * i), One()) == Act(Bits(old(d[..]), 480), One())
    {
      ghost var before := d[..];
      var x := d[i];
      d[i + 19] := Xor(d[i + 19], Shr(x, 7));
      d[i + 20] := Xor(d[i + 20], Shl(x, 1));
      d[i + 29] := Xor(d[i + 29], Shr(x, 1));
      d[i + 30] := Xor(d[i + 30], Shl(x, 7));
      ReduceByte(before, d[..], i);
    }
    ghost var before := d[..];
    var x := And(d[30], Lit(0xfe));
    d[49] := Xor(d[49], Shr(x, 7));
    d[50] := Xor(d[50], Shl(x, 1));
    d[59] := Xor(d[59], Shr(x, 1));
    d[30] := And(d[30], Lit(1));
    ReduceLast(before, d[..], x);
    ActOne(Bits(d[..], DEGREE));
  }

  /** The element that all 240 bits stand for; multiplication reads the lower 233 only. */
  function Whole(a: seq<Byte>): Elt
    requires |a| == 30
  {
    Act(Bits(a, 240), One())
  }

  /** The fast squaring agrees with multiplication, on the element all bits stand for. */
  method EltSquare(a: seq<Byte>) returns (r: seq<Byte>)
    requires |a| == 30
    ensures Reduced(r) && Low(r) == Mul(Whole(a), Whole(a))
    ensures Reduced(a) ==> Low(r) == Mul(Low(a), Low(a))
  {
    var wide := EltSquareToWide(a);
    SpreadIsSquare(Bits(a, 240));
    WideReduce(wide);
    r := wide[30..];
    assert Low(r) == Bits(wide[..], DEGREE) by {
      BitsAt(r, DEGREE);
      BitsAt(wide[..], DEGREE);
    }
    if Reduced(a) {
      ReducedValue(a);
    }
  }

  lemma ReducedValue(a: seq<Byte>)
    requires Reduced(a)
    ensures Act(Bits(a, 240), One()) == Low(a)
  {
    BitsAt(a, DEGREE);
    BitsAt(a, 240);
    assert SameCoeffs(Bits(a, 240), Low(a));
    ActByCoeffs(Bits(a, 240), Low(a), One());
    ActOne(Low(a));
  }

  // ---------- Inversion by a chain of squarings

  function Pow2(n: nat): (r: nat)
    ensures r >= 1
  {
    if n == 0 then 1 else 2 * Pow2(n - 1)
  }

  lemma {:induction false} Pow2Add(m: nat, n: nat)
    ensures Pow2(m + n) == Pow2(m) * Pow2(n)
  {
    if m > 0 {
      Pow2Add(m - 1, n);
    }
  }

  /** The exponent after j squarings of a power e of u. */
  function Doubled(e: nat, j: nat): nat {
    if j == 0 then e else 2 * Doubled(e, j - 1)
  }

  ghost predicate IsPower(x: seq<Byte>, u: Elt, e: nat) {
    Reduced(x) && Low(x) == Pow(u, e)
  }

  lemma SquareOfPower(x: Elt, u: Elt, e: nat)
    requires x == Pow(u, e)
    ensures Mul(x, x) == Pow(u, 2 * e)
  {
    PowDouble(u, e);
  }

  lemma ProductOfPowers(t: seq<Byte>, b: seq<Byte>, r: seq<Byte>, u: Elt, e: nat, f: nat)
    requires IsPower(t, u, e) && IsPower(b, u, f)
    requires Reduced(r) && Low(r) == Mul(Low(t), Low(b))
    ensures IsPower(r, u, e + f)
  {
    PowAdd(u, e, f);
  }

  /** If both arguments are powers of u, the result's exponent is e * 2^j + f. */
  method ItohTsujii(a: seq<Byte>, b: seq<Byte>, j: nat, ghost u: Elt, ghost e: nat, ghost f: nat) returns (r: seq<Byte>)
    requires |a| == |b| == 30
    ensures |r| == 30 && (IsPower(a, u, e) && IsPower(b, u, f) ==> IsPower(r, u, Doubled(e, j) + f))
  {
    hide Act, Whole, Low, Reduced, Pow;
    var t := a;
    for k := 0 to j
      invariant |t| == 30 && (IsPower(a, u, e) ==> IsPower(t, u, Doubled(e, k)))
    {
      if IsPower(a, u, e) {
        SquareOfPower(Low(t), u, Doubled(e, k));
      }
      t := EltSquare(t);
    }
    r := EltMul(t, b);
    if IsPower(a, u, e) && IsPower(b, u, f) {
      ProductOfPowers(t, b, r, u, Doubled(e, j), f);
    }
  }

  lemma {:induction false} DoubledIs(e: nat, j: nat)
    ensures Doubled(e, j) == e * Pow2(j)
  {
    if j > 0 {
      DoubledIs(e, j - 1);
    }
  }

  lemma ChainStep(m: nat, j: nat)
    ensures Doubled(Pow2(m) - 1, j) + (Pow2(j) - 1) == Pow2(m + j) - 1
  {
    hide Pow2, Doubled;
    DoubledIs(Pow2(m) - 1, j);
    Pow2Add(m, j);
  }

  /** x is u to the power 2^k - 1. */
  ghost predicate OnesPower(x: seq<Byte>, u: Elt, k: nat) {
    IsPower(x, u, Pow2(k) - 1)
  }

  /** A link of the addition chain: exponents with m and j ones give one with m + j ones. */
  method ChainLink(a: seq<Byte>, b: seq<Byte>, j: nat, ghost u: Elt, ghost m: nat) returns (r: seq<Byte>)
    requires |a| == |b| == 30
    ensures |r| == 30 && (OnesPower(a, u, m) && OnesPower(b, u, j) ==> OnesPower(r, u, m + j))
  {
    r := ItohTsujii(a, b, j, u, Pow2(m) - 1, Pow2(j) - 1);
    ChainStep(m, j);
  }

  /** The power with exponent 2 * (2^k - 1). */
  function EvenOnesPower(u: Elt, k: nat): (r: Elt)
    ensures r == Pow(u, Pow2(k + 1) - 2)
  {
    Pow(u, 2 * (Pow2(k) - 1))
  }

  /** What the inversion computes. */
  function Inv(u: Elt): Elt {
    EvenOnesPower(u, DEGREE - 1)
  }

  /** The inverse of Fermat's little theorem: u times it is u to the power 2^233 - 1. */
  lemma InvTimes(u: Elt)
    ensures Mul(u, Inv(u)) == Pow(u, Pow2(DEGREE) - 1)
  {
    hide Pow2, Pow, EvenOnesPower;
    FirstPowerIs(u);
    TwoAtLeast(DEGREE);
    PowAdd(u, 1, Pow2(DEGREE) - 2);
  }

  lemma FirstPowerIs(u: Elt)
    ensures Pow(u, 1) == u
  {
    MulUnit(u);
  }

  lemma TwoAtLeast(n: nat)
    requires n > 0
    ensures Pow2(n) >= 2
  {
  }

  lemma LastSquaring(s: seq<Byte>, u: Elt, k: nat)
    requires OnesPower(s, u, k)
    ensures Sq(Low(s)) == EvenOnesPower(u, k)
  {
    SquareOfPower(Low(s), u, Pow2(k) - 1);
  }

  /** Ten links and a squaring; on unreduced bytes the squarings and the products read different elements. */
  method EltInv(a: seq<Byte>) returns (r: seq<Byte>)
    requires |a| == 30
    ensures Reduced(r) && (Reduced(a) ==> Low(r) == Inv(Low(a)))
  {
    hide OnesPower, Reduced;
    ghost var u := Low(a);
    if Reduced(a) {
      FirstPower(a);
    }
    var t := ChainLink(a, a, 1, u, 1);
    var s := ChainLink(t, a, 1, u, 2);
    t := ChainLink(s, s, 3, u, 3);
    s := ChainLink(t, a, 1, u, 6);
    t := ChainLink(s, s, 7, u, 7);
    s := ChainLink(t, t, 14, u, 14);
    t := ChainLink(s, a, 1, u, 28);
    s := ChainLink(t, t, 29, u, 29);
    t := ChainLink(s, s, 58, u, 58);
    s := ChainLink(t, t, 116, u, 116);
    r := EltSquare(s);
    if Reduced(a) {
      LastSquaring(s, u, 232);
      OnesReduced(s, u, 232);
    }
  }

  lemma FirstPower(a: seq<Byte>)
    requires Reduced(a)
    ensures OnesPower(a, Low(a), 1)
  {
    MulUnit(Low(a));
  }

  lemma OnesReduced(s: seq<Byte>, u: Elt, k: nat)
    requires OnesPower(s, u, k)
    ensures Reduced(s)
  {
  }
}
