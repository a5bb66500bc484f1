/** The transform matrices of `_compute_winograd_transforms` (plaidml/op.py:1324-1371), over the reals. */
module WinogradMatrices {
  import opened Sums
  import opened WinogradTransforms

  function Listed(rows: seq<seq<real>>): Matrix {
    (i, j) => if 0 <= i < |rows| && 0 <= j < |rows[i]| then rows[i][j] else 0.0
  }

  function Flipped(m: Matrix): Matrix {
    (i, j) => m(j, i)
  }

  const A2 := [[1.0, 0.0], [1.0, 1.0], [1.0, -1.0], [0.0, -1.0]]
  const B2 := [[1.0, 0.0, 0.0, 0.0], [0.0, 1.0, -1.0, 1.0], [-1.0, 1.0, 1.0, 0.0], [0.0, 0.0, 0.0, -1.0]]
  const G2 := [[1.0, 0.0, 0.0], [0.5, 0.5, 0.5], [0.5, -0.5, 0.5], [0.0, 0.0, 1.0]]

  // L(2, 3)
  function Small(): Triple {
    Triple(4, 2, 3, Listed(A2), Listed(B2), Listed(G2))
  }

  const A4_WRITTEN := [
    [1.13777777777778, 0.0, 0.0, 0.0],
    [-0.688403361344538, -0.430252100840336, -0.26890756302521, -0.168067226890756],
    [-0.688403361344538, 0.430252100840336, -0.26890756302521, 0.168067226890756],
    [0.119514472455649, 0.179271708683473, 0.26890756302521, 0.403361344537815],
    [0.119514472455649, -0.179271708683473, 0.26890756302521, -0.403361344537815],
    [0.0, 0.0, 0.0, 1.0]]

  // The fractions that those decimals round.
  const A4_EXACT := [
    [256.0 / 225.0, 0.0, 0.0, 0.0],
    [-2048.0 / 2975.0, -256.0 / 595.0, -32.0 / 119.0, -20.0 / 119.0],
    [-2048.0 / 2975.0, 256.0 / 595.0, -32.0 / 119.0, 20.0 / 119.0],
    [128.0 / 1071.0, 64.0 / 357.0, 32.0 / 119.0, 48.0 / 119.0],
    [128.0 / 1071.0, -64.0 / 357.0, 32.0 / 119.0, -48.0 / 119.0],
    [0.0, 0.0, 0.0, 1.0]]

  const B4_FLIPPED := [
    [0.87890625, 0.0, -2.640625, 0.0, 1.0, 0.0],
    [0.0, -1.40625, -2.25, 0.625, 1.0, 0.0],
    [0.0, 1.40625, -2.25, -0.625, 1.0, 0.0],
    [0.0, -0.5859375, -0.390625, 1.5, 1.0, 0.0],
    [0.0, 0.5859375, -0.390625, -1.5, 1.0, 0.0],
    [0.0, 0.87890625, 0.0, -2.640625, 0.0, 1.0]]

  const G4_FLIPPED := [
    [1.0, 1.0, 1.0, 1.0, 1.0, 0.0],
    [0.0, 0.625, -0.625, 1.5, -1.5, 0.0],
    [0.0, 0.390625, 0.390625, 2.25, 2.25, 1.0]]

  // L(4, 3), as written and with the exact inverse transform.
  function Written(): Triple {
    Triple(6, 4, 3, Listed(A4_WRITTEN), Flipped(Listed(B4_FLIPPED)), Flipped(Listed(G4_FLIPPED)))
  }

  function Large(): Triple {
    Triple(6, 4, 3, Listed(A4_EXACT), Flipped(Listed(B4_FLIPPED)), Flipped(Listed(G4_FLIPPED)))
  }

  lemma SumOfFour(f: Vector)
    ensures Sum(4, f) == f(0) + f(1) + f(2) + f(3)
  {
    assert Sum(0, f) == 0.0;
    OverStep(0, f);
    OverStep(1, f);
    OverStep(2, f);
    OverStep(3, f);
  }

  function Six(f: Vector): real {
    f(0) + f(1) + f(2) + f(3) + f(4) + f(5)
  }

  lemma SumOfSix(f: Vector)
    ensures Sum(6, f) == Six(f)
  {
    SumOfFour(f);
    OverStep(4, f);
    OverStep(5, f);
  }

  lemma SmallCoefficient(i: int, a: int, s: int)
    requires 0 <= i < 2 && 0 <= a < 4 && 0 <= s < 3
    ensures Shifts(Small(), i, a, s)
  {
    SumOfFour(CoefficientTerm(Small(), i, a, s));
  }

  lemma SmallIsExact()
    ensures IsExact(Small())
  {
    forall i, a, s | 0 <= i < 2 && 0 <= a < 4 && 0 <= s < 3 ensures Shifts(Small(), i, a, s) {
      SmallCoefficient(i, a, s);
    }
  }

  // The products of entries (k, i) and (k, s) of the inverse and kernel transforms depend only on i + s.
  const MOMENTS := [
    [256.0 / 225.0, -2048.0 / 2975.0, -2048.0 / 2975.0, 128.0 / 1071.0, 128.0 / 1071.0, 0.0],
    [0.0, -256.0 / 595.0, 256.0 / 595.0, 64.0 / 357.0, -64.0 / 357.0, 0.0],
    [0.0, -32.0 / 119.0, -32.0 / 119.0, 32.0 / 119.0, 32.0 / 119.0, 0.0],
    [0.0, -20.0 / 119.0, 20.0 / 119.0, 48.0 / 119.0, -48.0 / 119.0, 0.0],
    [0.0, -25.0 / 238.0, -25.0 / 238.0, 72.0 / 119.0, 72.0 / 119.0, 0.0],
    [0.0, -125.0 / 1904.0, 125.0 / 1904.0, 108.0 / 119.0, -108.0 / 119.0, 1.0]]

  lemma Moment(k: int, i: int, s: int)
    requires 0 <= k < 6 && 0 <= i < 4 && 0 <= s < 3
    ensures A4_EXACT[k][i] * G4_FLIPPED[s][k] == MOMENTS[i + s][k]
  {
  }

  function MomentTerm(m: int, a: int): Vector {
    k => if 0 <= m < 6 && 0 <= a < 6 && 0 <= k < 6 then MOMENTS[m][k] * B4_FLIPPED[k][a] else 0.0
  }

  // The data transform is dual to them.
  lemma Dual(m: int, a: int)
    requires 0 <= m < 6 && 0 <= a < 6
    ensures Six(MomentTerm(m, a)) == if a == m then 1.0 else 0.0
  {
    var f := MomentTerm(m, a);
    if m == 0 {
    } else if m == 1 {
    } else if m == 2 {
    } else if m == 3 {
    } else if m == 4 {
    } else {
    }
  }

  lemma LargeEntries(i: int, a: int, s: int, k: int)
    requires 0 <= i < 4 && 0 <= a < 6 && 0 <= s < 3 && 0 <= k < 6
    ensures Large().a(k, i) == A4_EXACT[k][i] && Large().b(a, k) == B4_FLIPPED[k][a]
    ensures Large().g(k, s) == G4_FLIPPED[s][k]
  {
  }

  lemma TwoFactors(w: Triple, i: int, a: int, s: int, k: int, moment: real, b: real)
    requires w.a(k, i) * w.g(k, s) == moment && w.b(a, k) == b
    ensures CoefficientTerm(w, i, a, s)(k) == moment * b
  {
    Associate(w.a(k, i), w.b(a, k), w.g(k, s));
  }

  lemma LargeTerm(i: int, a: int, s: int, k: int)
    requires 0 <= i < 4 && 0 <= a < 6 && 0 <= s < 3 && 0 <= k < 6
    ensures CoefficientTerm(Large(), i, a, s)(k) == MomentTerm(i + s, a)(k)
  {
    LargeEntries(i, a, s, k);
    Moment(k, i, s);
    TwoFactors(Large(), i, a, s, k, MOMENTS[i + s][k], B4_FLIPPED[k][a]);
  }

  lemma LargeCoefficient(i: int, a: int, s: int)
    requires 0 <= i < 4 && 0 <= a < 6 && 0 <= s < 3
    ensures Shifts(Large(), i, a, s)
  {
    forall k | 0 <= k < 6 ensures CoefficientTerm(Large(), i, a, s)(k) == MomentTerm(i + s, a)(k) {
      LargeTerm(i, a, s, k);
    }
    Congruent(6, CoefficientTerm(Large(), i, a, s), MomentTerm(i + s, a));
    SumOfSix(MomentTerm(i + s, a));
    Dual(i + s, a);
  }

  lemma LargeIsExact()
    ensures IsExact(Large())
  {
    forall i, a, s | 0 <= i < 4 && 0 <= a < 6 && 0 <= s < 3 ensures Shifts(Large(), i, a, s) {
      LargeCoefficient(i, a, s);
    }
  }

  // The rounded decimals do not satisfy the identity: the first data element's weight in the first output is not 1.
  lemma WrittenIsInexact()
    ensures !Shifts(Written(), 0, 0, 0) && !IsExact(Written())
  {
    SumOfSix(CoefficientTerm(Written(), 0, 0, 0));
  }
}
