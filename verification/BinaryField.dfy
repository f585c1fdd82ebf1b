/**
 The ring GF(2)[t] / (t^233 + t^74 + 1) that the console signature check computes in.

 An element is its coefficient sequence, lowest power first.  Multiplication is
 defined through `Act`, the action of an arbitrary polynomial on the ring, and is
 proved to be the polynomial product reduced by long division by the trinomial.
 */
module BinaryField {

  const DEGREE: nat := 233
  const MIDDLE: nat := 74

  type Elt = a: seq<bool> | |a| == DEGREE witness seq(DEGREE, _ => false)

  function Zero(): Elt {
    seq(DEGREE, _ => false)
  }

  function One(): Elt {
    seq(DEGREE, i => i == 0)
  }

  function Add(a: Elt, b: Elt): Elt {
    seq(DEGREE, i requires 0 <= i < DEGREE => a[i] != b[i])
  }

  /** Multiplication by t: shift up and fold the overflowing coefficient back in. */
  function MulX(a: Elt): Elt {
    seq(DEGREE, i requires 0 <= i < DEGREE =>
          if i == 0 then a[DEGREE - 1]
          else if i == MIDDLE then a[i - 1] != a[DEGREE - 1]
          else a[i - 1])
  }

  function Scale(c: bool, b: Elt): Elt {
    if c then b else Zero()
  }

  /** p(t) * b, by Horner's rule, for a polynomial of any length. */
  function Act(p: seq<bool>, b: Elt): Elt {
    if p == [] then Zero() else Add(Scale(p[0], b), MulX(Act(p[1..], b)))
  }

  function Mul(a: Elt, b: Elt): Elt {
    Act(a, b)
  }

  function Sq(a: Elt): Elt {
    Mul(a, a)
  }

  // ---------- Additive laws

  lemma AddLaws(a: Elt, b: Elt, c: Elt)
    ensures Add(a, b) == Add(b, a)
    ensures Add(Add(a, b), c) == Add(a, Add(b, c))
    ensures Add(a, Zero()) == a
    ensures Add(Zero(), a) == a
    ensures Add(a, a) == Zero()
  {
  }

  lemma AddMiddleSwap(a: Elt, b: Elt, c: Elt, d: Elt)
    ensures Add(Add(a, b), Add(c, d)) == Add(Add(a, c), Add(b, d))
  {
  }

  lemma MulXLinear(a: Elt, b: Elt)
    ensures MulX(Add(a, b)) == Add(MulX(a), MulX(b))
    ensures MulX(Zero()) == Zero()
  {
  }

  // ---------- The action is bilinear and commutes with itself

  lemma {:induction false} ActLinear(p: seq<bool>, b: Elt, c: Elt)
    ensures Act(p, Add(b, c)) == Add(Act(p, b), Act(p, c))
  {
    if p == [] {
      AddLaws(Zero(), Zero(), Zero());
    } else {
      var u, v := Act(p[1..], b), Act(p[1..], c);
      ActLinear(p[1..], b, c);
      MulXLinear(u, v);
      assert Scale(p[0], Add(b, c)) == Add(Scale(p[0], b), Scale(p[0], c)) by { AddLaws(Zero(), Zero(), Zero()); }
      AddMiddleSwap(Scale(p[0], b), Scale(p[0], c), MulX(u), MulX(v));
    }
  }

  lemma {:induction false} ActZero(p: seq<bool>)
    ensures Act(p, Zero()) == Zero()
  {
    if p != [] {
      ActZero(p[1..]);
      MulXLinear(Zero(), Zero());
      AddLaws(Zero(), Zero(), Zero());
    }
  }

  lemma {:induction false} ActMulX(p: seq<bool>, b: Elt)
    ensures Act(p, MulX(b)) == MulX(Act(p, b))
  {
    if p == [] {
      MulXLinear(b, b);
    } else {
      ActMulX(p[1..], b);
      MulXLinear(Scale(p[0], b), MulX(Act(p[1..], b)));
      assert Scale(p[0], MulX(b)) == MulX(Scale(p[0], b));
    }
  }

  lemma {:induction false} ActCommutes(p: seq<bool>, q: seq<bool>, b: Elt)
    ensures Act(p, Act(q, b)) == Act(q, Act(p, b))
  {
    if p == [] {
      ActZero(q);
    } else {
      var r := Act(p[1..], b);
      ActCommutes(p[1..], q, b);
      ActLinear(q, Scale(p[0], b), MulX(r));
      ActMulX(q, r);
      ActZero(q);
    }
  }

  // ---------- Powers of t

  /** t^k * b */
  function Shift(k: nat, b: Elt): Elt {
    if k == 0 then b else MulX(Shift(k - 1, b))
  }

  lemma {:induction false} ShiftAdd(j: nat, k: nat, b: Elt)
    ensures Shift(j + k, b) == Shift(j, Shift(k, b))
  {
    hide MulX;
    if j != 0 {
      ShiftAdd(j - 1, k, b);
    }
  }

  lemma {:induction false} ShiftLinear(k: nat, a: Elt, b: Elt)
    ensures Shift(k, Add(a, b)) == Add(Shift(k, a), Shift(k, b))
  {
    if k != 0 {
      ShiftLinear(k - 1, a, b);
      MulXLinear(Shift(k - 1, a), Shift(k - 1, b));
    }
  }

  lemma {:induction false} ActShift(p: seq<bool>, k: nat, b: Elt)
    ensures Act(p, Shift(k, b)) == Shift(k, Act(p, b))
  {
    if k != 0 {
      ActShift(p, k - 1, b);
      ActMulX(p, Shift(k - 1, b));
    }
  }

  lemma {:induction false} ActConcat(p: seq<bool>, q: seq<bool>, b: Elt)
    ensures Act(p + q, b) == Add(Act(p, b), Shift(|p|, Act(q, b)))
  {
    hide MulX, Add, Zero;
    if p == [] {
      assert p + q == q;
      AddLaws(Act(q, b), Zero(), Zero());
    } else {
      assert (p + q)[1..] == p[1..] + q;
      ActConcat(p[1..], q, b);
      MulXLinear(Act(p[1..], b), Shift(|p| - 1, Act(q, b)));
      AddLaws(Scale(p[0], b), MulX(Act(p[1..], b)), Shift(|p|, Act(q, b)));
    }
  }

  /** The monomial t^k, for k below the degree. */
  function Monomial(k: nat): Elt {
    seq(DEGREE, i => i == k)
  }

  lemma {:induction false} ShiftOne(k: nat)
    requires k < DEGREE
    ensures Shift(k, One()) == Monomial(k)
  {
    if k == 0 {
      assert One() == Monomial(0);
    } else {
      ShiftOne(k - 1);
      assert MulX(Monomial(k - 1)) == Monomial(k);
    }
  }

  /** t^233 = t^74 + 1 */
  lemma TrinomialVanishes(b: Elt)
    ensures Shift(DEGREE, b) == Add(b, Shift(MIDDLE, b))
  {
    ShiftOne(DEGREE - 1);
    ShiftOne(MIDDLE);
    var top := Monomial(DEGREE - 1);
    assert MulX(top) == Add(One(), Monomial(MIDDLE));
    assert Shift(DEGREE, One()) == Add(One(), Shift(MIDDLE, One()));
    ActOne(b);
    ActShift(b, DEGREE, One());
    ActShift(b, MIDDLE, One());
    ActLinear(b, One(), Shift(MIDDLE, One()));
  }

  // ---------- A short polynomial acts on One as itself

  function Pad(p: seq<bool>): Elt
    requires |p| <= DEGREE
  {
    seq(DEGREE, i requires 0 <= i < DEGREE => i < |p| && p[i])
  }

  lemma {:induction false} ActOnOne(p: seq<bool>)
    requires |p| <= DEGREE
    ensures Act(p, One()) == Pad(p)
  {
    if p != [] {
      ActOnOne(p[1..]);
      var rest := Pad(p[1..]);
      assert !rest[DEGREE - 1];
      assert forall i :: 0 <= i < DEGREE ==> Add(Scale(p[0], One()), MulX(rest))[i] == Pad(p)[i];
    }
  }

  lemma ActOne(a: Elt)
    ensures Act(a, One()) == a
  {
    ActOnOne(a);
    assert Pad(a) == a;
  }

  // ---------- Commutative ring of characteristic two

  lemma MulComm(a: Elt, b: Elt)
    ensures Mul(a, b) == Mul(b, a)
  {
    ActOne(a);
    ActOne(b);
    ActCommutes(a, b, One());
  }

  lemma MulAssoc(a: Elt, b: Elt, c: Elt)
    ensures Mul(Mul(a, b), c) == Mul(a, Mul(b, c))
  {
    MulComm(Mul(a, b), c);
    ActCommutes(c, a, b);
    MulComm(c, b);
  }

  lemma MulDistr(a: Elt, b: Elt, c: Elt)
    ensures Mul(a, Add(b, c)) == Add(Mul(a, b), Mul(a, c))
    ensures Mul(Add(b, c), a) == Add(Mul(b, a), Mul(c, a))
  {
    ActLinear(a, b, c);
    MulComm(a, Add(b, c));
    MulComm(a, b);
    MulComm(a, c);
  }

  lemma MulUnit(a: Elt)
    ensures Mul(a, One()) == a && Mul(One(), a) == a
    ensures Mul(a, Zero()) == Zero() && Mul(Zero(), a) == Zero()
  {
    ActOne(a);
    MulComm(a, One());
    ActZero(a);
    MulComm(a, Zero());
  }

  // ---------- Squaring spreads the coefficients

  /** p(t^2) */
  function Spread(p: seq<bool>): seq<bool> {
    if p == [] then [] else [p[0], false] + Spread(p[1..])
  }

  lemma MulOfMulX(a: Elt, b: Elt)
    ensures Mul(MulX(a), b) == MulX(Mul(a, b)) && Mul(a, MulX(b)) == MulX(Mul(a, b))
  {
    ActMulX(a, b);
    MulComm(MulX(a), b);
    ActMulX(b, a);
    MulComm(a, b);
  }

  lemma SqAdd(a: Elt, b: Elt)
    ensures Sq(Add(a, b)) == Add(Sq(a), Sq(b))
  {
    MulDistr(Add(a, b), a, b);
    MulDistr(a, a, b);
    MulDistr(b, a, b);
    MulComm(a, b);
    assert Add(Add(Sq(a), Mul(a, b)), Add(Mul(a, b), Sq(b))) == Add(Sq(a), Sq(b));
  }

  /** The Frobenius law the table-driven squaring rests on. */
  lemma {:induction false} SpreadIsSquare(p: seq<bool>)
    ensures Act(Spread(p), One()) == Sq(Act(p, One()))
  {
    if p == [] {
      MulUnit(Zero());
    } else {
      var r := Act(p[1..], One());
      SpreadIsSquare(p[1..]);
      var s := Spread(p);
      assert s[1..] == [false] + Spread(p[1..]);
      assert s[1..][1..] == Spread(p[1..]);
      AddLaws(MulX(Sq(r)), Zero(), Zero());
      assert Act(s, One()) == Add(Scale(p[0], One()), MulX(MulX(Sq(r))));
      SqAdd(Scale(p[0], One()), MulX(r));
      MulOfMulX(r, MulX(r));
      MulOfMulX(r, r);
      MulUnit(One());
      MulUnit(Zero());
    }
  }

  // ---------- Powers

  function Pow(a: Elt, n: nat): Elt {
    if n == 0 then One() else Mul(a, Pow(a, n - 1))
  }

  lemma {:induction false} PowAdd(a: Elt, m: nat, n: nat)
    ensures Pow(a, m + n) == Mul(Pow(a, m), Pow(a, n))
  {
    hide Mul;
    if m == 0 {
      MulUnit(Pow(a, n));
    } else {
      PowAdd(a, m - 1, n);
      MulAssoc(a, Pow(a, m - 1), Pow(a, n));
    }
  }

  lemma PowDouble(a: Elt, n: nat)
    ensures Pow(a, 2 * n) == Sq(Pow(a, n))
  {
    PowAdd(a, n, n);
  }

  // ---------- Reference: schoolbook product and long division of polynomials

  function Coeff(p: seq<bool>, i: nat): bool {
    i < |p| && p[i]
  }

  function PolyAdd(p: seq<bool>, q: seq<bool>): seq<bool> {
    seq(if |p| < |q| then |q| else |p|, i requires 0 <= i => Coeff(p, i) != Coeff(q, i))
  }

  function PolyMul(p: seq<bool>, q: seq<bool>): seq<bool> {
    if p == [] then [] else PolyAdd(if p[0] then q else [], [false] + PolyMul(p[1..], q))
  }

  function Trinomial(): seq<bool> {
    seq(DEGREE + 1, i => i == 0 || i == MIDDLE || i == DEGREE)
  }

  ghost predicate SameCoeffs(p: seq<bool>, q: seq<bool>) {
    forall i: nat :: Coeff(p, i) == Coeff(q, i)
  }

  /** r is what is left of p after dividing by the trinomial with quotient q. */
  ghost predicate Divides(p: seq<bool>, q: seq<bool>, r: Elt) {
    SameCoeffs(p, PolyAdd(PolyMul(q, Trinomial()), r))
  }

  lemma {:induction false} ActByCoeffs(p: seq<bool>, q: seq<bool>, b: Elt)
    requires SameCoeffs(p, q)
    ensures Act(p, b) == Act(q, b)
    decreases |p| + |q|
  {
    if p != [] || q != [] {
      var p', q' := if p == [] then [] else p[1..], if q == [] then [] else q[1..];
      assert Coeff(p, 0) == Coeff(q, 0);
      assert SameCoeffs(p', q') by {
        forall i: nat ensures Coeff(p', i) == Coeff(q', i) {
          assert Coeff(p, i + 1) == Coeff(q, i + 1);
        }
      }
      ActByCoeffs(p', q', b);
      MulXLinear(Zero(), Zero());
      AddLaws(Zero(), Zero(), Zero());
    }
  }

  lemma {:induction false} ActPolyAdd(p: seq<bool>, q: seq<bool>, b: Elt)
    ensures Act(PolyAdd(p, q), b) == Add(Act(p, b), Act(q, b))
    decreases |p| + |q|
  {
    var s := PolyAdd(p, q);
    if p == [] {
      assert s == q;
      AddLaws(Act(q, b), Zero(), Zero());
    } else if q == [] {
      assert s == p;
      AddLaws(Act(p, b), Zero(), Zero());
    } else {
      assert s[1..] == PolyAdd(p[1..], q[1..]);
      var u, v := Act(p[1..], b), Act(q[1..], b);
      ActPolyAdd(p[1..], q[1..], b);
      MulXLinear(u, v);
      AddLaws(b, Zero(), Zero());
      AddMiddleSwap(Scale(p[0], b), MulX(u), Scale(q[0], b), MulX(v));
    }
  }

  lemma {:induction false} ActPolyMul(p: seq<bool>, q: seq<bool>, b: Elt)
    ensures Act(PolyMul(p, q), b) == Act(p, Act(q, b))
  {
    if p != [] {
      var m := PolyMul(p[1..], q);
      ActPolyMul(p[1..], q, b);
      ActPolyAdd(if p[0] then q else [], [false] + m, b);
      assert ([false] + m)[1..] == m;
      AddLaws(MulX(Act(m, b)), Zero(), Zero());
    }
  }

  lemma TrinomialActsAsZero(b: Elt)
    ensures Act(Trinomial(), b) == Zero()
  {
    var low := Monomial(0);
    var parts := PolyAdd(Add(One(), Monomial(MIDDLE)), seq(DEGREE, _ => false) + [true]);
    assert SameCoeffs(Trinomial(), parts);
    ActByCoeffs(Trinomial(), parts, b);
    ActPolyAdd(Add(One(), Monomial(MIDDLE)), seq(DEGREE, _ => false) + [true], b);
    ActConcat(seq(DEGREE, _ => false), [true], b);
    assert Act([true], b) == b by {
      MulXLinear(b, b);
      AddLaws(b, b, b);
    }
    MulComm(Zero(), b);
    ActZero(b);
    assert Act(seq(DEGREE, _ => false), b) == Zero();
    MulDistr(b, One(), Monomial(MIDDLE));
    MulUnit(b);
    ShiftOne(MIDDLE);
    MulComm(Monomial(MIDDLE), b);
    ActShift(b, MIDDLE, One());
    TrinomialVanishes(b);
    AddLaws(Shift(DEGREE, b), Shift(DEGREE, b), Zero());
    AddLaws(Zero(), Shift(DEGREE, b), Zero());
  }

  /** The quotient long division produces, coefficient by coefficient from the top. */
  function Quotient(p: seq<bool>): seq<bool> {
    if p == [] then [] else [Act(p[1..], One())[DEGREE - 1]] + Quotient(p[1..])
  }

  lemma CoeffOfAdd(p: seq<bool>, q: seq<bool>, i: nat)
    ensures Coeff(PolyAdd(p, q), i) == (Coeff(p, i) != Coeff(q, i))
  {
  }

  lemma CoeffOfMul(p: seq<bool>, q: seq<bool>, i: nat)
    requires p != []
    ensures Coeff(PolyMul(p, q), i) == ((p[0] && Coeff(q, i)) != (i > 0 && Coeff(PolyMul(p[1..], q), i - 1)))
  {
    CoeffOfAdd(if p[0] then q else [], [false] + PolyMul(p[1..], q), i);
  }

  /** One more coefficient c below p, whose division is q and r: t*r overflows by exactly the trinomial. */
  lemma DivisionStep(c: bool, p: seq<bool>, q: seq<bool>, r: Elt, i: nat)
    requires Divides(p, q, r)
    ensures Coeff([c] + p, i) ==
            Coeff(PolyAdd(PolyMul([r[DEGREE - 1]] + q, Trinomial()), Add(Scale(c, One()), MulX(r))), i)
  {
    var s := [r[DEGREE - 1]] + q;
    var r' := Add(Scale(c, One()), MulX(r));
    assert s[1..] == q;
    CoeffOfMul(s, Trinomial(), i);
    CoeffOfAdd(PolyMul(s, Trinomial()), r', i);
    if i > 0 {
      assert Coeff([c] + p, i) == Coeff(p, i - 1);
      assert Coeff(p, i - 1) == Coeff(PolyAdd(PolyMul(q, Trinomial()), r), i - 1);
      CoeffOfAdd(PolyMul(q, Trinomial()), r, i - 1);
    }
  }

  lemma {:induction false} DivisionExists(p: seq<bool>)
    ensures Divides(p, Quotient(p), Act(p, One()))
  {
    if p != [] {
      var r := Act(p[1..], One());
      DivisionExists(p[1..]);
      assert [p[0]] + p[1..] == p;
      forall i: nat
        ensures Coeff(p, i) == Coeff(PolyAdd(PolyMul(Quotient(p), Trinomial()), Act(p, One())), i)
      {
        DivisionStep(p[0], p[1..], Quotient(p[1..]), r, i);
      }
    }
  }

  lemma DivisionUnique(p: seq<bool>, q: seq<bool>, r: Elt)
    requires Divides(p, q, r)
    ensures r == Act(p, One())
  {
    ActByCoeffs(p, PolyAdd(PolyMul(q, Trinomial()), r), One());
    ActPolyAdd(PolyMul(q, Trinomial()), r, One());
    ActPolyMul(q, Trinomial(), One());
    TrinomialActsAsZero(One());
    ActZero(q);
    ActOne(r);
    AddLaws(r, Zero(), Zero());
  }

  /** `Mul` is exactly the polynomial product reduced modulo t^233 + t^74 + 1. */
  lemma MulIsProductModTrinomial(a: Elt, b: Elt, r: Elt)
    ensures r == Mul(a, b) <==> exists q :: Divides(PolyMul(a, b), q, r)
  {
    ActPolyMul(a, b, One());
    ActOne(b);
    DivisionExists(PolyMul(a, b));
    forall q | Divides(PolyMul(a, b), q, r)
      ensures r == Mul(a, b)
    {
      DivisionUnique(PolyMul(a, b), q, r);
    }
  }
}
