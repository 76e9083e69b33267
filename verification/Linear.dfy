/** Vectors and matrices of field elements; matrices are sequences of rows. */
module Linear {
  import opened GF256

  type Vector = seq<Byte>
  type Matrix = seq<Vector>

  ghost predicate Shape(rows: Matrix, n: nat, k: nat) {
    |rows| == n && forall i :: 0 <= i < n ==> |rows[i]| == k
  }

  function Dot(u: Vector, v: Vector): Byte
    requires |u| == |v|
  {
    if u == [] then 0 else Add(Mul(u[0], v[0]), Dot(u[1..], v[1..]))
  }

  function Sum(u: Vector, v: Vector): Vector
    requires |u| == |v|
  {
    seq(|u|, i requires 0 <= i < |u| => Add(u[i], v[i]))
  }

  function Scale(c: Byte, u: Vector): Vector {
    seq(|u|, i requires 0 <= i < |u| => Mul(c, u[i]))
  }

  function Zeros(k: nat): Vector {
    seq(k, i => 0)
  }

  function Unit(k: nat, r: nat): Vector {
    seq(k, i => if i == r then 1 else 0)
  }

  /** Column vector rows * d. */
  function Apply(rows: Matrix, d: Vector): (x: Vector)
    requires forall i :: 0 <= i < |rows| ==> |rows[i]| == |d|
    ensures |x| == |rows|
  {
    seq(|rows|, i requires 0 <= i < |rows| => Dot(rows[i], d))
  }

  /** Row vector w * rows. */
  function Combine(w: Vector, rows: Matrix, k: nat): (r: Vector)
    requires |w| == |rows| && forall i :: 0 <= i < |rows| ==> |rows[i]| == k
    ensures |r| == k
  {
    if w == [] then Zeros(k) else Sum(Scale(w[0], rows[0]), Combine(w[1..], rows[1..], k))
  }

  /** w and b are k by k, and each undoes the other. */
  ghost predicate IsInverse(w: Matrix, b: Matrix, k: nat) {
    && Shape(w, k, k)
    && Shape(b, k, k)
    && (forall r {:trigger w[r]} :: 0 <= r < k ==> Combine(w[r], b, k) == Unit(k, r))
    && (forall r {:trigger b[r]} :: 0 <= r < k ==> Combine(b[r], w, k) == Unit(k, r))
  }

  lemma {:induction false} DotSum(u: Vector, v: Vector, d: Vector)
    requires |u| == |v| == |d|
    ensures Dot(Sum(u, v), d) == Add(Dot(u, d), Dot(v, d))
  {
    hide Add, Mul;
    if u == [] {
      AddLaws(0, 0, 0);
    } else {
      assert Sum(u, v)[1..] == Sum(u[1..], v[1..]);
      DotSum(u[1..], v[1..], d[1..]);
      MulAddLeft(u[0], v[0], d[0]);
      AddExchange(Mul(u[0], d[0]), Mul(v[0], d[0]), Dot(u[1..], d[1..]), Dot(v[1..], d[1..]));
    }
  }

  lemma {:induction false} DotScale(c: Byte, u: Vector, d: Vector)
    requires |u| == |d|
    ensures Dot(Scale(c, u), d) == Mul(c, Dot(u, d))
  {
    hide Add, Mul;
    if u == [] {
      MulZero(c);
    } else {
      assert Scale(c, u)[1..] == Scale(c, u[1..]);
      DotScale(c, u[1..], d[1..]);
      MulAssociative(c, u[0], d[0]);
      MulAddRight(c, Mul(u[0], d[0]), Dot(u[1..], d[1..]));
    }
  }

  lemma {:induction false} DotZeros(k: nat, d: Vector)
    requires |d| == k
    ensures Dot(Zeros(k), d) == 0
  {
    hide Add, Mul;
    if k > 0 {
      assert Zeros(k)[1..] == Zeros(k - 1);
      DotZeros(k - 1, d[1..]);
      MulZero(d[0]);
      AddLaws(0, 0, 0);
    }
  }

  lemma {:induction false} DotUnit(k: nat, r: nat, d: Vector)
    requires r < k == |d|
    ensures Dot(Unit(k, r), d) == d[r]
  {
    hide Add, Mul;
    AddLaws(d[r], 0, 0);
    if r == 0 {
      assert Unit(k, 0)[1..] == Zeros(k - 1);
      DotZeros(k - 1, d[1..]);
      MulOne(d[0]);
    } else {
      assert Unit(k, r)[1..] == Unit(k - 1, r - 1);
      DotUnit(k - 1, r - 1, d[1..]);
      MulZero(d[0]);
    }
  }

  /** (w * rows) . d == w . (rows * d) */
  lemma {:induction false} DotCombine(w: Vector, rows: Matrix, d: Vector)
    requires |w| == |rows| && forall i :: 0 <= i < |rows| ==> |rows[i]| == |d|
    ensures Dot(Combine(w, rows, |d|), d) == Dot(w, Apply(rows, d))
  {
    hide Add, Mul;
    if w == [] {
      DotZeros(|d|, d);
    } else {
      var rest := Combine(w[1..], rows[1..], |d|);
      assert Apply(rows, d)[1..] == Apply(rows[1..], d);
      DotSum(Scale(w[0], rows[0]), rest, d);
      DotScale(w[0], rows[0], d);
      DotCombine(w[1..], rows[1..], d);
    }
  }

  /** Multiplying by one matrix and then by its inverse changes nothing. */
  lemma ApplyInverse(w: Matrix, b: Matrix, d: Vector)
    requires IsInverse(w, b, |d|)
    ensures Apply(w, Apply(b, d)) == d
  {
    forall r | 0 <= r < |d|
      ensures Dot(w[r], Apply(b, d)) == d[r]
    {
      DotCombine(w[r], b, d);
      DotUnit(|d|, r, d);
    }
  }

  /** Solving b * x == a: where row q of b reads off component r, that component of the solution is a[q]. */
  lemma {:induction false} SolutionOfUnitRow(w: Matrix, b: Matrix, a: Vector, q: nat, r: nat)
    requires IsInverse(w, b, |a|)
    requires q < |a| && r < |a| && b[q] == Unit(|a|, r)
    ensures Dot(w[r], a) == a[q]
  {
    var x := Apply(w, a);
    DotCombine(b[q], w, a);
    DotUnit(|a|, q, a);
    DotUnit(|a|, r, x);
  }
}
