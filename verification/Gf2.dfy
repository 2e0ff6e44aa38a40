/** Polynomials over GF(2), as the finite set of the exponents whose coefficient is one.

    Addition is symmetric difference, so every polynomial is its own negative and no
    normal form is needed: two polynomials are equal exactly when the sets are.
 */
module Gf2 {

  type Poly = set<nat>

  function Add(p: Poly, q: Poly): Poly {
    (p - q) + (q - p)
  }

  /** Multiplication by x^n. */
  ghost function Shift(p: Poly, n: nat): Poly {
    set i | i in p :: i + n
  }

  /** The coefficient of x^i when `bits` lists the coefficients, highest power first. */
  predicate Coefficient(bits: seq<bool>, i: nat) {
    i < |bits| && bits[|bits| - 1 - i]
  }

  ghost function FromBits(bits: seq<bool>): Poly {
    set i: nat | i < |bits| && Coefficient(bits, i)
  }

  /** The product of the polynomial with coefficients `q` (highest power first) and `g`. */
  ghost function Mul(q: seq<bool>, g: Poly): Poly {
    if q == [] then {}
    else
      var head := Shift(Mul(q[..|q| - 1], g), 1);
      if q[|q| - 1] then Add(head, g) else head
  }

  /** `r` is a remainder of `t` on division by the degree `n` polynomial `g`. */
  ghost predicate IsRemainder(t: Poly, g: Poly, n: nat, r: Poly) {
    (forall i :: i in r ==> i < n) &&
    exists q: seq<bool> :: t == Add(Mul(q, g), r)
  }

  ghost predicate HasDegree(g: Poly, n: nat) {
    n in g && forall i :: i in g ==> i <= n
  }

  lemma AddInterchange(a: Poly, b: Poly, c: Poly, d: Poly)
    ensures Add(Add(a, b), Add(c, d)) == Add(Add(a, c), Add(b, d))
  {
  }

  lemma ShiftMember(p: Poly, n: nat, i: nat)
    ensures i in Shift(p, n) <==> n <= i && i - n in p
  {
    if n <= i && i - n in p {
      assert (i - n) + n == i;
    }
  }

  lemma ShiftAdd(p: Poly, q: Poly, n: nat)
    ensures Shift(Add(p, q), n) == Add(Shift(p, n), Shift(q, n))
  {
    forall i: nat
      ensures i in Shift(Add(p, q), n) <==> i in Add(Shift(p, n), Shift(q, n))
    {
      ShiftMember(Add(p, q), n, i);
      ShiftMember(p, n, i);
      ShiftMember(q, n, i);
    }
  }

  lemma ShiftShift(p: Poly, m: nat, n: nat)
    ensures Shift(Shift(p, m), n) == Shift(p, m + n)
  {
    forall i: nat
      ensures i in Shift(Shift(p, m), n) <==> i in Shift(p, m + n)
    {
      ShiftMember(Shift(p, m), n, i);
      ShiftMember(p, m + n, i);
      if n <= i {
        ShiftMember(p, m, i - n);
      }
    }
  }

  lemma FromBitsAppend(bits: seq<bool>, b: bool)
    ensures FromBits(bits + [b]) == Add(Shift(FromBits(bits), 1), if b then {0} else {})
  {
    forall i: nat
      ensures i in FromBits(bits + [b]) <==> i in Add(Shift(FromBits(bits), 1), if b then {0} else {})
    {
      ShiftMember(FromBits(bits), 1, i);
    }
  }

  /** A product with a degree `n` polynomial is zero, or reaches degree `n`. */
  lemma {:induction false} MulDegree(q: seq<bool>, g: Poly, n: nat)
    requires HasDegree(g, n)
    ensures (forall i :: i in Mul(q, g) ==> i < n) ==> Mul(q, g) == {}
    ensures Mul(q, g) == {} || exists d :: n <= d && HasDegree(Mul(q, g), d)
  {
    if q == [] {
      return;
    }
    var last := |q| - 1;
    MulDegree(q[..last], g, n);
    var m := Mul(q[..last], g);
    forall i: nat ensures i in Shift(m, 1) <==> 1 <= i && i - 1 in m {
      ShiftMember(m, 1, i);
    }
    if m == {} {
      assert Shift(m, 1) == {};
      if q[last] {
        assert Mul(q, g) == g;
        assert HasDegree(Mul(q, g), n);
      }
    } else {
      var d :| n <= d && HasDegree(m, d);
      assert d + 1 in Shift(m, 1);
      assert HasDegree(Mul(q, g), d + 1);
    }
  }

  function Term(b: bool, g: Poly): Poly {
    if b then g else {}
  }

  lemma MulLast(q: seq<bool>, g: Poly)
    requires q != []
    ensures Mul(q, g) == Add(Shift(Mul(q[..|q| - 1], g), 1), Term(q[|q| - 1], g))
  {
    AddZero(Shift(Mul(q[..|q| - 1], g), 1));
  }

  lemma TermSum(a: bool, b: bool, g: Poly)
    ensures Add(Term(a, g), Term(b, g)) == Term(a != b, g)
  {
  }

  lemma AddZero(p: Poly)
    ensures Add({}, p) == p && Add(p, {}) == p
  {
  }

  /** The products with `g` are closed under addition. */
  lemma {:induction false} MulSum(q1: seq<bool>, q2: seq<bool>, g: Poly) returns (q: seq<bool>)
    ensures Add(Mul(q1, g), Mul(q2, g)) == Mul(q, g)
    decreases |q1| + |q2|
  {
    if q1 == [] {
      q := q2;
      AddZero(Mul(q2, g));
    } else if q2 == [] {
      q := q1;
      AddZero(Mul(q1, g));
    } else {
      var q0 := MulSum(q1[..|q1| - 1], q2[..|q2| - 1], g);
      q := q0 + [q1[|q1| - 1] != q2[|q2| - 1]];
      assert q[..|q| - 1] == q0;
      MulSumStep(q1, q2, q, g);
    }
  }

  lemma MulSumStep(q1: seq<bool>, q2: seq<bool>, q: seq<bool>, g: Poly)
    requires q1 != [] && q2 != [] && q != [] && q[|q| - 1] == (q1[|q1| - 1] != q2[|q2| - 1])
    requires Add(Mul(q1[..|q1| - 1], g), Mul(q2[..|q2| - 1], g)) == Mul(q[..|q| - 1], g)
    ensures Add(Mul(q1, g), Mul(q2, g)) == Mul(q, g)
  {
    var m1, m2 := Mul(q1[..|q1| - 1], g), Mul(q2[..|q2| - 1], g);
    var t1, t2 := Term(q1[|q1| - 1], g), Term(q2[|q2| - 1], g);
    MulLast(q1, g);
    MulLast(q2, g);
    MulLast(q, g);
    ShiftAdd(m1, m2, 1);
    TermSum(q1[|q1| - 1], q2[|q2| - 1], g);
    AddInterchange(Shift(m1, 1), t1, Shift(m2, 1), t2);
  }

  /** Division with remainder has at most one remainder. */
  lemma RemainderUnique(t: Poly, g: Poly, n: nat, r1: Poly, r2: Poly)
    requires HasDegree(g, n)
    requires IsRemainder(t, g, n, r1) && IsRemainder(t, g, n, r2)
    ensures r1 == r2
  {
    var q1: seq<bool> :| t == Add(Mul(q1, g), r1);
    var q2: seq<bool> :| t == Add(Mul(q2, g), r2);
    var q := MulSum(q1, q2, g);
    assert Mul(q, g) == Add(r1, r2);
    MulDegree(q, g, n);
    assert Add(r1, r2) == {};
  }
}
