/**
 The grid search and the primality test of app/qml/CallParticipantView.qml, over real numbers.
 `rows` is the view's name for the number of cells in a row.
 */
module CallGrid {
  import opened Common

  const MAX_SAFE_INTEGER: real := 9007199254740991.0
  const TWO_31: int := 0x8000_0000

  ghost predicate Prime(n: int) {
    n > 1 && forall d :: 2 <= d < n ==> n % d != 0
  }

  // A divisor from i up has a cofactor below i.
  lemma Cofactor(n: int, d: int, i: int)
    requires 2 <= i <= d < n && n % d == 0 && n < i * i
    ensures 2 <= n / d < i && n % (n / d) == 0
  {
    var q := n / d;
    assert n == d * q;
    if q >= i { Grows(i, q, i, d); }
    if q < 2 { Grows(d, d, q, 1); }
    Multiple(d, q);
  }

  lemma Grows(a: int, b: int, c: int, d: int)
    requires 0 <= a <= b && 0 <= c <= d
    ensures a * c <= b * d
  {
  }

  lemma Multiple(d: int, q: int)
    requires q > 0
    ensures (d * q) % q == 0
  {
    Remainder(d, q, (d * q) / q, (d * q) % q);
  }

  // Division with remainder is unique.
  lemma Remainder(d: int, q: int, k: int, r: int)
    requires q > 0 && d * q == q * k + r && 0 <= r < q
    ensures r == 0
  {
    assert (d - k) * q == r;
    if d > k { Grows(1, d - k, q, q); }
    if d < k { Grows(1, k - d, q, q); }
  }

  /** True exactly for the primes above two. */
  method IsPrime(num: int) returns (prime: bool)
    ensures prime <==> num > 2 && Prime(num)
  {
    var i := 2;
    while i * i <= num
      invariant i >= 2
      invariant forall d :: 2 <= d < i ==> num % d != 0
      decreases num - i
    {
      if num % i == 0 {
        Grows(2, i, i, i);
        return false;
      }
      Grows(2, i, i, i);
      i := i + 1;
    }
    forall d | i <= d < num
      ensures num % d != 0
    {
      if num % d == 0 {
        Cofactor(num, d, i);
      }
    }
    return num > 2;
  }

  function Abs(x: real): real {
    if x < 0.0 then -x else x
  }

  // Cells in a row by cells in a column.
  function Shape(i: int, n: int): real
    requires 1 <= i <= n
  {
    i as real / (n / i) as real
  }

  // How far a grid of n cells, i in a row, is from the shape of the box.
  function Error(i: int, n: int, ratio: real, aspect: real): real
    requires 1 <= i <= n && aspect > 0.0
  {
    Abs((Shape(i, n) - ratio) / aspect)
  }

  // A box of no height has no finite ratio: the division gives Infinity or NaN, and then no error
  // compares as smaller than anything.
  function BoxRatio(boxWidth: real, boxHeight: real): Option<real> {
    if boxHeight == 0.0 then None else Some(boxWidth / boxHeight)
  }

  function Fits(boxWidth: real, minimumCellWidth: real): int
    requires minimumCellWidth > 0.0
  {
    (boxWidth / minimumCellWidth).Floor
  }

  // The divisors that the two passes look at, of n and, for a prime above two, of n + 1.
  predicate InFirst(i: int, n: int, fits: int) {
    1 <= i <= n && i <= fits && n % i == 0
  }

  ghost predicate InSecond(i: int, n: int, fits: int) {
    n > 2 && Prime(n) && 1 <= i < n + 1 && i < fits && (n + 1) % i == 0
  }

  predicate Closer(i: int, n: int, ratio: Option<real>, aspect: real, e: real)
    requires 1 <= i <= n && aspect > 0.0
  {
    ratio.Some? && Error(i, n, ratio.value, aspect) < e
  }

  // No pair looked at has an error below e.
  ghost predicate Bounds(e: real, n: int, fits: int, ratio: Option<real>, aspect: real)
    requires aspect > 0.0
  {
    && (forall i :: InFirst(i, n, fits) ==> !Closer(i, n, ratio, aspect, e))
    && (forall i :: InSecond(i, n, fits) ==> !Closer(i, n + 1, ratio, aspect, e))
  }

  // Every divisor before i has a larger error.
  ghost predicate FirstOfEquals(i: int, n: int, ratio: Option<real>, aspect: real, e: real)
    requires i <= n && aspect > 0.0 && ratio.Some?
  {
    forall k :: 1 <= k < i && n % k == 0 ==> e < Error(k, n, ratio.value, aspect)
  }

  // The grid is the first pair looked at of least error, or one by one when all errors are too large.
  ghost predicate BestGrid(rows: int, columns: int, n: int, fits: int, ratio: Option<real>, aspect: real)
    requires aspect > 0.0
  {
    || (rows == columns == 1 && Bounds(MAX_SAFE_INTEGER, n, fits, ratio, aspect))
    || (&& InFirst(rows, n, fits) && columns == n / rows
        && Closer(rows, n, ratio, aspect, MAX_SAFE_INTEGER)
        && FirstOfEquals(rows, n, ratio, aspect, Error(rows, n, ratio.value, aspect))
        && Bounds(Error(rows, n, ratio.value, aspect), n, fits, ratio, aspect))
    || (&& InSecond(rows, n, fits) && columns == (n + 1) / rows
        && Closer(rows, n + 1, ratio, aspect, MAX_SAFE_INTEGER)
        && FirstOfEquals(rows, n + 1, ratio, aspect, Error(rows, n + 1, ratio.value, aspect))
        && (forall i :: InFirst(i, n, fits) ==>
              Error(rows, n + 1, ratio.value, aspect) < Error(i, n, ratio.value, aspect))
        && Bounds(Error(rows, n + 1, ratio.value, aspect), n, fits, ratio, aspect))
  }

  // What one pass over the divisors of `cells` up to `limit` makes of the best so far: it stays unless
  // some error is below it; then the first pair of least error takes its place.
  ghost predicate Searched(cells: int, limit: int, ratio: Option<real>, aspect: real,
                           m0: (int, int), minDelta0: real, m: (int, int), minDelta: real)
    requires limit <= cells && aspect > 0.0
  {
    && minDelta <= minDelta0
    && (forall i :: 1 <= i <= limit && cells % i == 0 ==> !Closer(i, cells, ratio, aspect, minDelta))
    && ((m == m0 && minDelta == minDelta0) ||
        (&& minDelta < minDelta0 && 1 <= m.0 <= limit && cells % m.0 == 0 && m.1 == cells / m.0
         && ratio.Some? && minDelta == Error(m.0, cells, ratio.value, aspect)
         && FirstOfEquals(m.0, cells, ratio, aspect, minDelta)))
  }

  method Pass(cells: int, limit: int, ratio: Option<real>, aspect: real, m0: (int, int), minDelta0: real)
    returns (m: (int, int), minDelta: real)
    requires limit <= cells && aspect > 0.0
    ensures Searched(cells, limit, ratio, aspect, m0, minDelta0, m, minDelta)
  {
    m, minDelta := m0, minDelta0;
    var i := 1;
    while i <= limit
      invariant 1 <= i && (i <= limit + 1 || i == 1)
      invariant minDelta <= minDelta0
      invariant ratio.Some? ==>
                  forall k :: 1 <= k < i && cells % k == 0 ==> minDelta <= Error(k, cells, ratio.value, aspect)
      invariant (m == m0 && minDelta == minDelta0) ||
                (minDelta < minDelta0 && 1 <= m.0 < i && cells % m.0 == 0 && m.1 == cells / m.0 &&
                 ratio.Some? && minDelta == Error(m.0, cells, ratio.value, aspect) &&
                 FirstOfEquals(m.0, cells, ratio, aspect, minDelta))
    {
      if cells % i == 0 && ratio.Some? {
        var delta := Error(i, cells, ratio.value, aspect);
        if minDelta > delta {
          m, minDelta := (i, cells / i), delta;
        }
      }
      i := i + 1;
    }
  }

  method CaclWidth(boxWidth: real, boxHeight: real, minimumCellWidth: real, aspect: real, n: nat)
    returns (rows: int, columns: int)
    requires minimumCellWidth > 0.0 && aspect > 0.0
    ensures BestGrid(rows, columns, n, Fits(boxWidth, minimumCellWidth), BoxRatio(boxWidth, boxHeight), aspect)
  {
    var ratio := BoxRatio(boxWidth, boxHeight);
    var fits := Fits(boxWidth, minimumCellWidth);
    var limit := if n < fits then n else fits;
    var m, minDelta := Pass(n, limit, ratio, aspect, (1, 1), MAX_SAFE_INTEGER);
    var prime := IsPrime(n);
    if !prime {
      AfterOnePass(n, fits, ratio, aspect, m, minDelta);
      return m.0, m.1;
    }
    ghost var d1 := minDelta;
    limit := (if n + 1 < fits then n + 1 else fits) - 1;
    m, minDelta := Pass(n + 1, limit, ratio, aspect, m, minDelta);
    assert forall i :: InFirst(i, n, fits) ==> !Closer(i, n, ratio, aspect, d1);
    assert forall i :: InSecond(i, n, fits) ==> !Closer(i, n + 1, ratio, aspect, minDelta);
    BothBound(n, fits, ratio, aspect, d1, minDelta);
    if minDelta < d1 {
      StillFarther(n, fits, ratio, aspect, d1, minDelta);
      assert InSecond(m.0, n, fits);
    }
    return m.0, m.1;
  }

  lemma AfterOnePass(n: nat, fits: int, ratio: Option<real>, aspect: real, m: (int, int), e: real)
    requires aspect > 0.0 && !(n > 2 && Prime(n))
    requires Searched(n, if n < fits then n else fits, ratio, aspect, (1, 1), MAX_SAFE_INTEGER, m, e)
    ensures BestGrid(m.0, m.1, n, fits, ratio, aspect)
  {
    assert Bounds(e, n, fits, ratio, aspect);
  }

  lemma BothBound(n: nat, fits: int, ratio: Option<real>, aspect: real, d1: real, e: real)
    requires aspect > 0.0 && e <= d1
    requires forall i :: InFirst(i, n, fits) ==> !Closer(i, n, ratio, aspect, d1)
    requires forall i :: InSecond(i, n, fits) ==> !Closer(i, n + 1, ratio, aspect, e)
    ensures Bounds(e, n, fits, ratio, aspect)
  {
  }

  // What was not below an error is above a smaller one.
  lemma StillFarther(n: nat, fits: int, ratio: Option<real>, aspect: real, d1: real, e: real)
    requires aspect > 0.0 && e < d1 && ratio.Some?
    requires forall i :: InFirst(i, n, fits) ==> !Closer(i, n, ratio, aspect, d1)
    ensures forall i :: InFirst(i, n, fits) ==> e < Error(i, n, ratio.value, aspect)
  {
    forall i | InFirst(i, n, fits)
      ensures e < Error(i, n, ratio.value, aspect)
    {
      assert !Closer(i, n, ratio, aspect, d1);
    }
  }

  /** The inputs determine the grid. */
  lemma OneBestGrid(r: int, c: int, rows: int, columns: int, n: int, fits: int, ratio: Option<real>, aspect: real)
    requires aspect > 0.0 && BestGrid(r, c, n, fits, ratio, aspect)
    requires BestGrid(rows, columns, n, fits, ratio, aspect)
    ensures r == rows && c == columns
  {
  }

  // The grid has n places, or n + 1 when n is a prime above two.
  ghost predicate HasThePlaces(rows: int, columns: int, n: int) {
    rows * columns == n || (n > 2 && Prime(n) && rows * columns == n + 1)
  }

  /** A grid has its places exactly when n is one or some pair looked at has an error below the initial
      bound; then no row is longer than what fits the box. */
  lemma GridFitsCells(rows: int, columns: int, n: int, fits: int, ratio: Option<real>, aspect: real)
    requires n >= 1 && aspect > 0.0 && BestGrid(rows, columns, n, fits, ratio, aspect)
    ensures HasThePlaces(rows, columns, n) <==> n == 1 || !Bounds(MAX_SAFE_INTEGER, n, fits, ratio, aspect)
    ensures !Bounds(MAX_SAFE_INTEGER, n, fits, ratio, aspect) ==> 1 <= rows <= fits
  {
    if InFirst(rows, n, fits) && columns == n / rows {
      Product(rows, n);
    } else if InSecond(rows, n, fits) && columns == (n + 1) / rows {
      Product(rows, n + 1);
    }
  }

  lemma Product(i: int, n: int)
    requires i >= 1 && n % i == 0
    ensures i * (n / i) == n
  {
  }

  // ----- When some pair is acceptable -----

  function LargestDivisor(n: int, limit: int): (d: int)
    requires n >= 1 && limit >= 1
    ensures 1 <= d <= limit && d <= n && n % d == 0
    ensures forall k :: d < k <= limit && k <= n ==> n % k != 0
    decreases limit
  {
    if limit <= n && n % limit == 0 then limit else LargestDivisor(n, limit - 1)
  }

  // The widest shape among the pairs looked at.
  ghost function WidestShape(n: int, fits: int): real
    requires n >= 1 && fits >= 1
  {
    var first := Shape(LargestDivisor(n, fits), n);
    if n > 2 && Prime(n) && fits > 1 then
      var second := Shape(LargestDivisor(n + 1, if n < fits - 1 then n else fits - 1), n + 1);
      if first < second then second else first
    else first
  }

  lemma ShapeGrows(i: int, j: int, n: int)
    requires 1 <= i <= j <= n && n % i == 0 && n % j == 0
    ensures Shape(i, n) <= Shape(j, n)
  {
    var a, b := n / i, n / j;
    Product(i, n);
    Product(j, n);
    if b > a { Grows(i, j, a + 1, b); }
    Quotients(i as real, a as real, j as real, b as real);
  }

  lemma Quotients(x: real, a: real, y: real, b: real)
    requires 0.0 < x <= y && a >= b > 0.0
    ensures x / a <= y / b
  {
    var p, q := x / a, y / b;
    assert p * a == x && q * b == y;
    assert q * (a - b) >= 0.0;
    Scaled(q, p, a);
  }

  lemma AtMostWhole(x: real, c: real)
    requires x >= 0.0 && c >= 1.0
    ensures x / c <= x
  {
    var q := x / c;
    assert q * c == x && q >= 0.0;
    assert q * (c - 1.0) >= 0.0;
  }

  // Below the initial bound means not too far under the ratio of the box.
  lemma ErrorBelow(i: int, n: int, ratio: real, aspect: real)
    requires 1 <= i <= n <= TWO_31 && aspect > 1.0 && ratio >= 0.0
    ensures Error(i, n, ratio, aspect) < MAX_SAFE_INTEGER <==> ratio < MAX_SAFE_INTEGER * aspect + Shape(i, n)
  {
    AtMostWhole(i as real, (n / i) as real);
    Scaled(1.0, aspect, MAX_SAFE_INTEGER);
    QuotientBelow(Shape(i, n) - ratio, MAX_SAFE_INTEGER, aspect);
  }

  lemma QuotientBelow(x: real, bound: real, aspect: real)
    requires aspect > 0.0
    ensures Abs(x / aspect) < bound <==> -(bound * aspect) < x < bound * aspect
  {
    var y := x / aspect;
    assert y * aspect == x;
    Scaled(y, bound, aspect);
    Scaled(-bound, y, aspect);
    assert -bound * aspect == -(bound * aspect);
  }

  lemma Scaled(x: real, y: real, c: real)
    requires c > 0.0
    ensures x < y <==> x * c < y * c
  {
    assert (y - x) * c == y * c - x * c;
    if x < y { assert (y - x) * c > 0.0; } else { assert (x - y) * c >= 0.0; }
  }

  lemma WidestOfAll(n: int, fits: int, i: int)
    requires n >= 1 && fits >= 1
    ensures InFirst(i, n, fits) ==> Shape(i, n) <= WidestShape(n, fits)
    ensures InSecond(i, n, fits) ==> Shape(i, n + 1) <= WidestShape(n, fits)
  {
    if InFirst(i, n, fits) {
      ShapeGrows(i, LargestDivisor(n, fits), n);
    }
    if InSecond(i, n, fits) {
      ShapeGrows(i, LargestDivisor(n + 1, if n < fits - 1 then n else fits - 1), n + 1);
    }
  }

  /** Some pair is acceptable exactly when a cell fits in a row and the box is not wider than the widest
      pair by the initial bound. */
  lemma WhenAPairIsAcceptable(n: int, fits: int, ratio: real, aspect: real)
    requires 1 <= n < TWO_31 && aspect > 1.0 && ratio >= 0.0
    ensures !Bounds(MAX_SAFE_INTEGER, n, fits, Some(ratio), aspect) <==>
            fits >= 1 && ratio < MAX_SAFE_INTEGER * aspect + WidestShape(n, fits)
  {
    if fits >= 1 && ratio < MAX_SAFE_INTEGER * aspect + WidestShape(n, fits) {
      WidestIsLookedAt(n, fits, ratio, aspect);
    } else {
      forall i | InFirst(i, n, fits)
        ensures !Closer(i, n, Some(ratio), aspect, MAX_SAFE_INTEGER)
      {
        WidestOfAll(n, fits, i);
        ErrorBelow(i, n, ratio, aspect);
      }
      forall i | InSecond(i, n, fits)
        ensures !Closer(i, n + 1, Some(ratio), aspect, MAX_SAFE_INTEGER)
      {
        WidestOfAll(n, fits, i);
        ErrorBelow(i, n + 1, ratio, aspect);
      }
    }
  }

  lemma WidestIsLookedAt(n: int, fits: int, ratio: real, aspect: real)
    requires 1 <= n < TWO_31 && aspect > 1.0 && ratio >= 0.0
    requires fits >= 1 && ratio < MAX_SAFE_INTEGER * aspect + WidestShape(n, fits)
    ensures !Bounds(MAX_SAFE_INTEGER, n, fits, Some(ratio), aspect)
  {
    var i := LargestDivisor(n, fits);
    if WidestShape(n, fits) == Shape(i, n) {
      ErrorBelow(i, n, ratio, aspect);
      assert InFirst(i, n, fits) && Closer(i, n, Some(ratio), aspect, MAX_SAFE_INTEGER);
    } else {
      var j := LargestDivisor(n + 1, if n < fits - 1 then n else fits - 1);
      ErrorBelow(j, n + 1, ratio, aspect);
      assert InSecond(j, n, fits) && Closer(j, n + 1, Some(ratio), aspect, MAX_SAFE_INTEGER);
    }
  }

  /** So in terms of the inputs: for a row count of at least one the grid has n places, or n + 1 when n is
      a prime above two, exactly when n is one, or the box has a height, is at least one cell
      wide, and is not wider than the widest pair by the initial bound. */
  lemma WhenTheGridHasThePlaces(boxWidth: real, boxHeight: real, minimumCellWidth: real, aspect: real,
                                n: int, rows: int, columns: int)
    requires boxWidth >= 0.0 && boxHeight >= 0.0 && minimumCellWidth > 0.0 && aspect > 1.0 && 1 <= n < TWO_31
    requires BestGrid(rows, columns, n, Fits(boxWidth, minimumCellWidth), BoxRatio(boxWidth, boxHeight), aspect)
    ensures var fits := Fits(boxWidth, minimumCellWidth);
            HasThePlaces(rows, columns, n) <==>
            n == 1 ||
            (boxHeight > 0.0 && fits >= 1 &&
             boxWidth / boxHeight < MAX_SAFE_INTEGER * aspect + WidestShape(n, fits))
  {
    var fits, ratio := Fits(boxWidth, minimumCellWidth), BoxRatio(boxWidth, boxHeight);
    GridFitsCells(rows, columns, n, fits, ratio, aspect);
    if ratio.Some? {
      assert ratio.value * boxHeight == boxWidth;
      assert ratio.value >= 0.0;
      WhenAPairIsAcceptable(n, fits, ratio.value, aspect);
    }
  }

  // A box of no height gets one cell, whatever the number of participants.
  lemma FlatBox(rows: int, columns: int, n: int, fits: int, aspect: real)
    requires aspect > 0.0 && BestGrid(rows, columns, n, fits, None, aspect)
    ensures rows == columns == 1
  {
  }

  // ----- The same in terms of cells and the box alone -----

  // A grid of `rows` by `columns` cells of minimum width is looked at for n participants: one of n
  // places that fits the box, or, for a prime above two, one of n + 1 places that leaves a cell's room.
  ghost predicate Candidate(rows: int, columns: int, n: int, boxWidth: real, minimumCellWidth: real) {
    && rows >= 1 && columns >= 1
    && ((rows * columns == n && rows as real * minimumCellWidth <= boxWidth) ||
        (n > 2 && Prime(n) && rows * columns == n + 1 && rows <= n &&
         (rows + 1) as real * minimumCellWidth <= boxWidth))
  }

  // How far the shape of a grid is from that of the box, as a number that is not negative.
  ghost predicate Off(rows: int, columns: int, boxWidth: real, boxHeight: real, d: real)
    requires columns >= 1 && boxHeight > 0.0
  {
    var difference := rows as real / columns as real - boxWidth / boxHeight;
    d >= 0.0 && (d == difference || d == -difference)
  }

  lemma FitsAsWidth(i: int, boxWidth: real, minimumCellWidth: real)
    requires minimumCellWidth > 0.0
    ensures i <= Fits(boxWidth, minimumCellWidth) <==> i as real * minimumCellWidth <= boxWidth
  {
    var q := boxWidth / minimumCellWidth;
    assert q * minimumCellWidth == boxWidth;
    Scaled(q, i as real, minimumCellWidth);
    assert i <= q.Floor <==> i as real <= q;
  }

  lemma Factors(rows: int, columns: int, n: int)
    requires rows >= 1 && columns >= 1 && rows * columns == n
    ensures n % rows == 0 && n / rows == columns && rows <= n
  {
    assert n == columns * rows;
    Multiple(columns, rows);
    Product(rows, n);
    if n / rows != columns { Unequal(rows, n / rows, columns); }
    Grows(1, columns, rows, rows);
  }

  lemma Unequal(a: int, b: int, c: int)
    requires a >= 1 && a * b == a * c
    ensures b == c
  {
    if b < c { Grows(1, a, c - b, c - b); }
    if c < b { Grows(1, a, b - c, b - c); }
  }

  ghost predicate LookedAt(r: int, c: int, n: int, fits: int) {
    (InFirst(r, n, fits) && c == n / r) || (InSecond(r, n, fits) && c == (n + 1) / r)
  }

  // The candidates are the pairs that the search looks at.
  lemma CandidatesLookedAt(rows: int, columns: int, n: int, boxWidth: real, minimumCellWidth: real)
    requires n >= 1 && minimumCellWidth > 0.0
    ensures Candidate(rows, columns, n, boxWidth, minimumCellWidth) <==>
            LookedAt(rows, columns, n, Fits(boxWidth, minimumCellWidth))
  {
    var fits := Fits(boxWidth, minimumCellWidth);
    FitsAsWidth(rows, boxWidth, minimumCellWidth);
    FitsAsWidth(rows + 1, boxWidth, minimumCellWidth);
    if Candidate(rows, columns, n, boxWidth, minimumCellWidth) {
      if rows * columns == n { Factors(rows, columns, n); } else { Factors(rows, columns, n + 1); }
    }
    if InFirst(rows, n, fits) && columns == n / rows { Product(rows, n); AtLeastOne(rows, columns, n); }
    if InSecond(rows, n, fits) && columns == (n + 1) / rows {
      Product(rows, n + 1);
      AtLeastOne(rows, columns, n + 1);
    }
  }

  lemma AtLeastOne(rows: int, columns: int, n: int)
    requires rows >= 1 && n >= 1 && rows * columns == n
    ensures columns >= 1
  {
    if columns <= 0 { Grows(0, rows, 0, -columns); }
  }

  lemma ErrorIsOff(rows: int, columns: int, n: int, boxWidth: real, boxHeight: real, aspect: real, d: real)
    requires 1 <= rows <= n && n / rows == columns >= 1 && boxHeight > 0.0 && aspect > 0.0
    requires Off(rows, columns, boxWidth, boxHeight, d)
    ensures Error(rows, n, boxWidth / boxHeight, aspect) * aspect == d
  {
    var x := rows as real / columns as real - boxWidth / boxHeight;
    var y := x / aspect;
    assert y * aspect == x;
    assert (-y) * aspect == -x;
    Scaled(y, 0.0, aspect);
  }

  // The error that the search has for a candidate.
  ghost function ErrorOf(rows: int, columns: int, n: int, ratio: real, aspect: real): real
    requires 1 <= rows <= n && aspect > 0.0
  {
    if rows * columns == n then Error(rows, n, ratio, aspect) else Error(rows, n + 1, ratio, aspect)
  }

  lemma CandidateError(rows: int, columns: int, n: int, boxWidth: real, boxHeight: real,
                       minimumCellWidth: real, aspect: real, d: real)
    requires n >= 1 && boxHeight > 0.0 && minimumCellWidth > 0.0 && aspect > 0.0
    requires Candidate(rows, columns, n, boxWidth, minimumCellWidth) && Off(rows, columns, boxWidth, boxHeight, d)
    ensures rows <= n && ErrorOf(rows, columns, n, boxWidth / boxHeight, aspect) * aspect == d
  {
    var total := if rows * columns == n then n else n + 1;
    Factors(rows, columns, total);
    ErrorIsOff(rows, columns, total, boxWidth, boxHeight, aspect, d);
  }

  lemma CandidateBound(rows: int, columns: int, n: int, boxWidth: real, minimumCellWidth: real,
                       ratio: real, aspect: real, e: real) returns (error: real)
    requires n >= 1 && minimumCellWidth > 0.0 && aspect > 0.0
    requires Candidate(rows, columns, n, boxWidth, minimumCellWidth)
    requires Bounds(e, n, Fits(boxWidth, minimumCellWidth), Some(ratio), aspect)
    ensures e <= error && rows <= n && error == ErrorOf(rows, columns, n, ratio, aspect)
  {
    CandidatesLookedAt(rows, columns, n, boxWidth, minimumCellWidth);
    Factors(rows, columns, if rows * columns == n then n else n + 1);
    FitsAsWidth(rows, boxWidth, minimumCellWidth);
    FitsAsWidth(rows + 1, boxWidth, minimumCellWidth);
    var fits := Fits(boxWidth, minimumCellWidth);
    if rows * columns == n { assert InFirst(rows, n, fits); } else { assert InSecond(rows, n, fits); }
    assert !Closer(rows, if rows * columns == n then n else n + 1, Some(ratio), aspect, e);
    error := ErrorOf(rows, columns, n, ratio, aspect);
  }

  ghost predicate BestCandidate(rows: int, columns: int, n: int, boxWidth: real, minimumCellWidth: real,
                                ratio: real, aspect: real)
    requires minimumCellWidth > 0.0 && aspect > 0.0
  {
    var fits := Fits(boxWidth, minimumCellWidth);
    (rows == columns == 1 && Bounds(MAX_SAFE_INTEGER, n, fits, Some(ratio), aspect)) ||
    (&& Candidate(rows, columns, n, boxWidth, minimumCellWidth) && rows <= n
     && Bounds(ErrorOf(rows, columns, n, ratio, aspect), n, fits, Some(ratio), aspect))
  }

  lemma BestIsCandidate(rows: int, columns: int, n: int, boxWidth: real, minimumCellWidth: real,
                        ratio: real, aspect: real)
    requires n >= 1 && minimumCellWidth > 0.0 && aspect > 0.0
    requires BestGrid(rows, columns, n, Fits(boxWidth, minimumCellWidth), Some(ratio), aspect)
    ensures BestCandidate(rows, columns, n, boxWidth, minimumCellWidth, ratio, aspect)
  {
    var fits := Fits(boxWidth, minimumCellWidth);
    CandidatesLookedAt(rows, columns, n, boxWidth, minimumCellWidth);
    if InFirst(rows, n, fits) && columns == n / rows {
      Product(rows, n);
    } else if InSecond(rows, n, fits) && columns == (n + 1) / rows {
      Product(rows, n + 1);
    }
  }

  // An error bound that a candidate meets, without the error.
  lemma CandidateMeets(r: int, c: int, n: int, boxWidth: real, boxHeight: real, minimumCellWidth: real,
                       aspect: real, bound: real, e: real) returns (error: real)
    requires n >= 1 && boxHeight > 0.0 && minimumCellWidth > 0.0 && aspect > 0.0
    requires Candidate(r, c, n, boxWidth, minimumCellWidth) && Off(r, c, boxWidth, boxHeight, e)
    requires Bounds(bound, n, Fits(boxWidth, minimumCellWidth), Some(boxWidth / boxHeight), aspect)
    ensures bound <= error && error * aspect == e
  {
    error := CandidateBound(r, c, n, boxWidth, minimumCellWidth, boxWidth / boxHeight, aspect, bound);
    ErrorScaled(r, c, n, boxWidth, boxHeight, minimumCellWidth, aspect, e, error);
  }

  lemma ErrorScaled(r: int, c: int, n: int, boxWidth: real, boxHeight: real, minimumCellWidth: real,
                    aspect: real, e: real, error: real)
    requires n >= 1 && boxHeight > 0.0 && minimumCellWidth > 0.0 && aspect > 0.0
    requires Candidate(r, c, n, boxWidth, minimumCellWidth) && Off(r, c, boxWidth, boxHeight, e)
    requires r <= n && error == ErrorOf(r, c, n, boxWidth / boxHeight, aspect)
    ensures error * aspect == e
  {
    CandidateError(r, c, n, boxWidth, boxHeight, minimumCellWidth, aspect, e);
  }

  // And the bound that the grid itself gives.
  lemma BestMeets(boxWidth: real, boxHeight: real, minimumCellWidth: real, aspect: real, n: int,
                  rows: int, columns: int, d: real) returns (best: real)
    requires boxHeight > 0.0 && minimumCellWidth > 0.0 && aspect > 0.0 && n >= 1
    requires BestCandidate(rows, columns, n, boxWidth, minimumCellWidth, boxWidth / boxHeight, aspect)
    requires columns >= 1 ==> Off(rows, columns, boxWidth, boxHeight, d)
    ensures Bounds(best, n, Fits(boxWidth, minimumCellWidth), Some(boxWidth / boxHeight), aspect)
    ensures (rows == columns == 1 && best == MAX_SAFE_INTEGER) ||
            (Candidate(rows, columns, n, boxWidth, minimumCellWidth) && best * aspect == d)
  {
    var fits, ratio := Fits(boxWidth, minimumCellWidth), Some(boxWidth / boxHeight);
    if rows == columns == 1 && Bounds(MAX_SAFE_INTEGER, n, fits, ratio, aspect) {
      best := MAX_SAFE_INTEGER;
    } else {
      best := ErrorOf(rows, columns, n, boxWidth / boxHeight, aspect);
      CandidateError(rows, columns, n, boxWidth, boxHeight, minimumCellWidth, aspect, d);
    }
  }

  lemma Conclude(candidate: bool, single: bool, best: real, error: real, aspect: real, d: real, e: real)
    requires aspect > 0.0 && best <= error && error * aspect == e
    requires (single && best == MAX_SAFE_INTEGER) || (candidate && best * aspect == d)
    ensures (candidate && d <= e) || (single && e >= MAX_SAFE_INTEGER * aspect)
  {
    Scaled(error, best, aspect);
  }

  /** For a box with a height, the grid is a candidate, and no candidate is closer to the shape of the
      box; only when all of them are off by the initial bound or more is it a single cell. */
  lemma GridIsClosest(boxWidth: real, boxHeight: real, minimumCellWidth: real, aspect: real, n: int,
                      rows: int, columns: int, r: int, c: int, d: real, e: real)
    requires boxHeight > 0.0 && minimumCellWidth > 0.0 && aspect > 0.0 && n >= 1
    requires BestGrid(rows, columns, n, Fits(boxWidth, minimumCellWidth), BoxRatio(boxWidth, boxHeight), aspect)
    requires Candidate(r, c, n, boxWidth, minimumCellWidth)
    requires columns >= 1 ==> Off(rows, columns, boxWidth, boxHeight, d)
    requires Off(r, c, boxWidth, boxHeight, e)
    ensures (Candidate(rows, columns, n, boxWidth, minimumCellWidth) && d <= e) ||
            (rows == columns == 1 && e >= 9007199254740991.0 * aspect)
  {
    BestIsCandidate(rows, columns, n, boxWidth, minimumCellWidth, boxWidth / boxHeight, aspect);
    var best := BestMeets(boxWidth, boxHeight, minimumCellWidth, aspect, n, rows, columns, d);
    var error := CandidateMeets(r, c, n, boxWidth, boxHeight, minimumCellWidth, aspect, best, e);
    var candidate := Candidate(rows, columns, n, boxWidth, minimumCellWidth);
    Conclude(candidate, rows == columns == 1, best, error, aspect, d, e);
  }

  /** Of candidates equally close the one returned comes first: n places before n + 1, and then the
      shorter row. */
  lemma TieGoesToTheFirst(boxWidth: real, boxHeight: real, minimumCellWidth: real, aspect: real, n: int,
                          rows: int, columns: int, r: int, c: int, d: real)
    requires boxHeight > 0.0 && minimumCellWidth > 0.0 && aspect > 0.0 && n >= 1
    requires BestGrid(rows, columns, n, Fits(boxWidth, minimumCellWidth), BoxRatio(boxWidth, boxHeight), aspect)
    requires Candidate(r, c, n, boxWidth, minimumCellWidth) && d < MAX_SAFE_INTEGER * aspect
    requires columns >= 1 ==> Off(rows, columns, boxWidth, boxHeight, d)
    requires Off(r, c, boxWidth, boxHeight, d)
    ensures rows * columns == n || r * c == n + 1
    ensures rows * columns == r * c ==> rows <= r
  {
    var ratio := boxWidth / boxHeight;
    GridIsClosest(boxWidth, boxHeight, minimumCellWidth, aspect, n, rows, columns, r, c, d, d);
    EqualErrors(boxWidth, boxHeight, minimumCellWidth, aspect, n, rows, columns, r, c, d);
    CandidateBelow(r, c, n, boxWidth, boxHeight, minimumCellWidth, aspect, d);
    CandidatesLookedAt(rows, columns, n, boxWidth, minimumCellWidth);
    CandidatesLookedAt(r, c, n, boxWidth, minimumCellWidth);
    FirstLookedAt(rows, columns, n, Fits(boxWidth, minimumCellWidth), ratio, aspect, r, c);
  }

  lemma EqualErrors(boxWidth: real, boxHeight: real, minimumCellWidth: real, aspect: real, n: int,
                    rows: int, columns: int, r: int, c: int, d: real)
    requires boxHeight > 0.0 && minimumCellWidth > 0.0 && aspect > 0.0 && n >= 1
    requires Candidate(rows, columns, n, boxWidth, minimumCellWidth) && Candidate(r, c, n, boxWidth, minimumCellWidth)
    requires Off(rows, columns, boxWidth, boxHeight, d) && Off(r, c, boxWidth, boxHeight, d)
    ensures rows <= n && r <= n
    ensures ErrorOf(rows, columns, n, boxWidth / boxHeight, aspect) == ErrorOf(r, c, n, boxWidth / boxHeight, aspect)
  {
    CandidateError(rows, columns, n, boxWidth, boxHeight, minimumCellWidth, aspect, d);
    CandidateError(r, c, n, boxWidth, boxHeight, minimumCellWidth, aspect, d);
    var x, y := ErrorOf(rows, columns, n, boxWidth / boxHeight, aspect), ErrorOf(r, c, n, boxWidth / boxHeight, aspect);
    Scaled(x, y, aspect);
    Scaled(y, x, aspect);
  }

  lemma CandidateBelow(r: int, c: int, n: int, boxWidth: real, boxHeight: real, minimumCellWidth: real,
                       aspect: real, d: real)
    requires n >= 1 && boxHeight > 0.0 && minimumCellWidth > 0.0 && aspect > 0.0
    requires Candidate(r, c, n, boxWidth, minimumCellWidth) && Off(r, c, boxWidth, boxHeight, d)
    requires d < MAX_SAFE_INTEGER * aspect
    ensures r <= n && ErrorOf(r, c, n, boxWidth / boxHeight, aspect) < MAX_SAFE_INTEGER
  {
    CandidateError(r, c, n, boxWidth, boxHeight, minimumCellWidth, aspect, d);
    Scaled(ErrorOf(r, c, n, boxWidth / boxHeight, aspect), MAX_SAFE_INTEGER, aspect);
  }

  // Of the pairs looked at with the error of the grid, the grid is the first.
  lemma FirstLookedAt(rows: int, columns: int, n: int, fits: int, ratio: real, aspect: real, r: int, c: int)
    requires aspect > 0.0 && BestGrid(rows, columns, n, fits, Some(ratio), aspect)
    ensures LookedAt(rows, columns, n, fits) && LookedAt(r, c, n, fits) &&
            ErrorOf(rows, columns, n, ratio, aspect) == ErrorOf(r, c, n, ratio, aspect) < MAX_SAFE_INTEGER ==>
              (rows * columns == n || r * c == n + 1) && (rows * columns == r * c ==> rows <= r)
  {
    if LookedAt(rows, columns, n, fits) && LookedAt(r, c, n, fits) {
      if InFirst(r, n, fits) && c == n / r { Product(r, n); } else { Product(r, n + 1); }
      if InFirst(rows, n, fits) && columns == n / rows { Product(rows, n); } else { Product(rows, n + 1); }
    }
  }

  /** A grid of n places that fits and has exactly the shape of the box is the one returned. */
  lemma ExactGrid(boxWidth: real, boxHeight: real, minimumCellWidth: real, aspect: real, n: int,
                  rows: int, columns: int, r: int, c: int)
    requires boxHeight > 0.0 && minimumCellWidth > 0.0 && aspect > 0.0 && n >= 1
    requires BestGrid(rows, columns, n, Fits(boxWidth, minimumCellWidth), BoxRatio(boxWidth, boxHeight), aspect)
    requires r >= 1 && c >= 1 && r * c == n && r as real * minimumCellWidth <= boxWidth
    requires r as real / c as real == boxWidth / boxHeight
    ensures rows == r && columns == c
  {
    var fits, ratio := Fits(boxWidth, minimumCellWidth), BoxRatio(boxWidth, boxHeight);
    Factors(r, c, n);
    FitsAsWidth(r, boxWidth, minimumCellWidth);
    assert InFirst(r, n, fits) && Error(r, n, ratio.value, aspect) == 0.0;
    FirstOfOneShape(r, rows, n, fits, ratio, aspect, columns);
  }

  // Of a pair of n places without error there is but one, and it comes before all of n + 1.
  lemma FirstOfOneShape(r: int, rows: int, n: int, fits: int, ratio: Option<real>, aspect: real, columns: int)
    requires n >= 1 && aspect > 0.0 && ratio.Some? && BestGrid(rows, columns, n, fits, ratio, aspect)
    requires InFirst(r, n, fits) && Error(r, n, ratio.value, aspect) == 0.0
    ensures rows == r && columns == n / r
  {
    assert Closer(r, n, ratio, aspect, MAX_SAFE_INTEGER);
    if InFirst(rows, n, fits) && columns == n / rows {
      ZeroError(r, n, ratio.value, aspect);
      if !(rows == columns == 1 && Bounds(MAX_SAFE_INTEGER, n, fits, ratio, aspect)) {
        var e := Error(rows, n, ratio.value, aspect);
        assert e == 0.0 by { assert !Closer(r, n, ratio, aspect, e); }
        ZeroError(rows, n, ratio.value, aspect);
        SameShape(r, rows, n);
      }
    }
  }

  lemma ZeroError(i: int, n: int, ratio: real, aspect: real)
    requires 1 <= i <= n && aspect > 0.0 && Error(i, n, ratio, aspect) == 0.0
    ensures Shape(i, n) == ratio
  {
    var y := (Shape(i, n) - ratio) / aspect;
    assert y * aspect == Shape(i, n) - ratio;
  }

  lemma SameShape(i: int, j: int, n: int)
    requires 1 <= i <= n && 1 <= j <= n && n % i == 0 && n % j == 0 && Shape(i, n) == Shape(j, n)
    ensures i == j
  {
    if i < j { ShapeGrowsStrictly(i, j, n); }
    if j < i { ShapeGrowsStrictly(j, i, n); }
  }

  lemma ShapeGrowsStrictly(i: int, j: int, n: int)
    requires 1 <= i < j <= n && n % i == 0 && n % j == 0
    ensures Shape(i, n) < Shape(j, n)
  {
    var a, b := n / i, n / j;
    Product(i, n);
    Product(j, n);
    if b > a { Grows(i, j, a + 1, b); }
    QuotientsStrictly(i as real, a as real, j as real, b as real);
  }

  lemma QuotientsStrictly(x: real, a: real, y: real, b: real)
    requires 0.0 < x < y && a >= b > 0.0
    ensures x / a < y / b
  {
    var p, q := x / a, y / b;
    assert p * a == x && q * b == y;
    assert q * (a - b) >= 0.0;
    Scaled(p, q, a);
  }
}
