/** Amounts in millimes: integers that must stay within the range a double holds exactly.
    Every helper either gives the exact result or fails. */
module Money {
  import opened Wrappers
  import opened Sums

  const MAX_SAFE: int := 0x1F_FFFF_FFFF_FFFF

  predicate Safe(x: int) { -MAX_SAFE <= x <= MAX_SAFE }

  datatype MoneyError = RangeError

  function Add(values: seq<int>): Result<int, MoneyError> {
    if exists v | v in values :: !Safe(v) then Err(RangeError)
    else
      var total := Sum(values, v => v);
      if Safe(total) then Ok(total) else Err(RangeError)
  }

  function Multiply(unitPrice: int, quantity: int): Result<int, MoneyError> {
    if !Safe(unitPrice) || !Safe(quantity) || quantity < 0 || !Safe(unitPrice * quantity) then Err(RangeError)
    else Ok(unitPrice * quantity)
  }

  /** Division of big integers truncates towards zero. */
  function TruncatedQuotient(n: int, d: int): int
    requires d > 0
  {
    if n >= 0 then n / d else -((-n) / d)
  }

  /** The rounding of a quotient by 10 000, from the truncated quotient and its remainder. */
  function Nearest(n: int): int {
    var quotient := TruncatedQuotient(n, 10_000);
    var remainder := n - quotient * 10_000;
    if remainder > 5_000 then quotient + 1
    else if remainder < -5_000 then quotient - 1
    else if remainder == 5_000 then quotient + 1
    else quotient
  }

  function BasisPoints(amount: int, basisPoints: int): Result<int, MoneyError> {
    if !Safe(amount) || basisPoints < 0 || basisPoints > 100_000 then Err(RangeError)
    else if Safe(Nearest(amount * basisPoints)) then Ok(Nearest(amount * basisPoints))
    else Err(RangeError)
  }

  lemma AddTwo(a: int, b: int)
    ensures Add([a, b]) == if Safe(a) && Safe(b) && Safe(a + b) then Ok(a + b) else Err(RangeError)
  {
    assert [a, b][..1] == [a] && [a][..0] == [];
    assert Sum([a], v => v) == a;
    assert Sum([a, b], v => v) == a + b;
    assert a in [a, b] && b in [a, b];
  }

  lemma AddThree(a: int, b: int, c: int)
    ensures Add([a, b, c]) ==
      if Safe(a) && Safe(b) && Safe(c) && Safe(a + b + c) then Ok(a + b + c) else Err(RangeError)
  {
    assert [a, b, c][..2] == [a, b] && [a, b][..1] == [a] && [a][..0] == [];
    assert Sum([a], v => v) == a;
    assert Sum([a, b], v => v) == a + b;
    assert Sum([a, b, c], v => v) == a + b + c;
    assert a in [a, b, c] && b in [a, b, c] && c in [a, b, c];
  }

  /** The nearest millime, halves upwards, for negative amounts as well; it fails exactly when the
      amount or the nearest millime leaves the safe range or the rate is not between 0 and 1000 %. */
  lemma BasisPointsRoundsHalfUp(amount: int, basisPoints: int)
    ensures BasisPoints(amount, basisPoints).Ok? <==>
      Safe(amount) && 0 <= basisPoints <= 100_000 && Safe((amount * basisPoints + 5_000) / 10_000)
    ensures BasisPoints(amount, basisPoints).Ok? ==>
      var r := BasisPoints(amount, basisPoints).value;
      -5_000 < 10_000 * r - amount * basisPoints <= 5_000
  {
    var n := amount * basisPoints;
    NearestIsFloor(n);
  }

  lemma NearestIsFloor(n: int)
    ensures Nearest(n) == (n + 5_000) / 10_000
    ensures -5_000 < 10_000 * Nearest(n) - n <= 5_000
  {
  }

  lemma ProductMonotone(small: int, large: int, factor: int)
    requires 0 <= small <= large && 0 <= factor
    ensures 0 <= small * factor <= large * factor
  {
    assert large * factor == small * factor + (large - small) * factor;
  }

  lemma NearestMonotone(m: int, n: int)
    requires 0 <= m <= n
    ensures 0 <= Nearest(m) <= Nearest(n)
  {
    NearestIsFloor(m);
    NearestIsFloor(n);
  }

  /** The tax on a smaller amount is defined when that on a larger one is, and is no larger. */
  lemma BasisPointsMonotone(small: int, large: int, basisPoints: int)
    requires 0 <= small <= large
    requires BasisPoints(large, basisPoints).Ok?
    ensures BasisPoints(small, basisPoints).Ok?
    ensures 0 <= BasisPoints(small, basisPoints).value <= BasisPoints(large, basisPoints).value
  {
    ProductMonotone(small, large, basisPoints);
    NearestMonotone(small * basisPoints, large * basisPoints);
  }
}
