/** `is_holdable`: the market-breadth signal computed from the price matrix.
    Prices and ratios are exact reals; a NaN of the source is `None` here. */
module Breadth {

  import opened Wrappers
  import opened PriceMatrix

  /** Window of the short trailing mean (`ind.rolling(20)`). */
  const ShortWindow: nat := 20
  /** Window of the long trailing mean (`ind.rolling(120)`). */
  const LongWindow: nat := 120

  /** How one stock's price moved into a row: `pct_change() > 0`,
      `pct_change() < 0`, exactly zero, or NaN (no comparable pair). */
  datatype Move = Up | Down | Flat | Unknown

  /** The cell as `pct_change` sees it: its default fill method pads a gap
      with the column's last known price; a leading gap stays missing. */
  function Filled(col: Column, i: nat): Option<real>
    requires i < |col|
  {
    if col[i].Some? then col[i]
    else if i == 0 then None
    else Filled(col, i - 1)
  }

  /** The padded cell is the latest price at or before row `i`. */
  lemma {:induction false} FilledIsLastKnown(col: Column, i: nat, p: real)
    requires i < |col|
    ensures Filled(col, i) == Some(p) <==>
              exists k :: 0 <= k <= i && col[k] == Some(p) && forall t :: k < t <= i ==> col[t] == None
  {
    if col[i].Some? {
      if Filled(col, i) == Some(p) {
        assert col[i] == Some(p);
      }
    } else if i == 0 {
      assert forall k :: 0 <= k <= i ==> col[k] == None;
    } else {
      FilledIsLastKnown(col, i - 1, p);
      if exists k :: 0 <= k <= i && col[k] == Some(p) && forall t :: k < t <= i ==> col[t] == None {
        var k :| 0 <= k <= i && col[k] == Some(p) && forall t :: k < t <= i ==> col[t] == None;
        assert k <= i - 1;
      }
    }
  }

  /** The padded cell is missing exactly while the column has not started. */
  lemma {:induction false} FilledMissingIsLeadingGap(col: Column, i: nat)
    requires i < |col|
    ensures Filled(col, i) == None <==> forall t :: 0 <= t <= i ==> col[t] == None
  {
    if col[i].None? && i > 0 {
      FilledMissingIsLeadingGap(col, i - 1);
    }
  }

  /** The move of one column into row `i`; the first row has no predecessor
      (`shift(1)` leaves it NaN). Comparing prices stands for comparing
      `cur / prev - 1` with zero, which is the same for positive prices
      (see PctChangeSign). */
  function MoveAt(col: Column, i: nat): Move
    requires i < |col|
  {
    if i == 0 then Unknown
    else
      match (Filled(col, i - 1), Filled(col, i))
      case (Some(prev), Some(cur)) =>
        if cur > prev then Up else if cur < prev then Down else Flat
      case _ => Unknown
  }

  /** With a positive previous price, the sign of the percentage change is
      the sign of the price difference. */
  lemma PctChangeSign(prev: real, cur: real)
    requires prev > 0.0
    ensures cur / prev - 1.0 > 0.0 <==> cur > prev
    ensures cur / prev - 1.0 < 0.0 <==> cur < prev
  {
    var q := cur / prev;
    assert q * prev == cur;
    if q > 1.0 { assert q * prev > 1.0 * prev; }
    if q < 1.0 { assert q * prev < 1.0 * prev; }
    if q == 1.0 { assert cur == prev; }
  }

  /** A gap after the first row never rises or falls: the padded value
      equals the previous row's. */
  lemma GapIsNoMove(col: Column, i: nat)
    requires 0 < i < |col| && col[i] == None
    ensures MoveAt(col, i) == Flat || MoveAt(col, i) == Unknown
  {
  }

  /** Every column reaches row `i`. */
  ghost predicate HasRow(cols: seq<Column>, i: nat)
  {
    forall c :: c in cols ==> i < |c|
  }

  /** The number of columns whose move into row `i` is `mv`
      (`(df.pct_change() > 0).sum(axis=1)` for `Up`). */
  function Count(cols: seq<Column>, i: nat, mv: Move): nat
    requires HasRow(cols, i)
  {
    if cols == [] then 0
    else (if MoveAt(cols[0], i) == mv then 1 else 0) + Count(cols[1..], i, mv)
  }

  lemma {:induction false} CountAppend(a: seq<Column>, b: seq<Column>, i: nat, mv: Move)
    requires HasRow(a, i) && HasRow(b, i)
    ensures HasRow(a + b, i)
    ensures Count(a + b, i, mv) == Count(a, i, mv) + Count(b, i, mv)
  {
    if a == [] {
      assert a + b == b;
    } else {
      assert (a + b)[1..] == a[1..] + b;
      CountAppend(a[1..], b, i, mv);
    }
  }

  /** Each column counts towards at most one of rise and fall. */
  lemma {:induction false} RiseFallBounded(cols: seq<Column>, i: nat)
    requires HasRow(cols, i)
    ensures Count(cols, i, Up) + Count(cols, i, Down) <= |cols|
  {
    if cols != [] {
      RiseFallBounded(cols[1..], i);
    }
  }

  /** No column has move `mv`, so the count is zero. */
  lemma {:induction false} CountAbsent(cols: seq<Column>, i: nat, mv: Move)
    requires HasRow(cols, i)
    requires forall c :: c in cols ==> MoveAt(c, i) != mv
    ensures Count(cols, i, mv) == 0
  {
    if cols != [] {
      CountAbsent(cols[1..], i, mv);
    }
  }

  /** The first row has neither rises nor falls. */
  lemma FirstRowHasNoMoves(cols: seq<Column>)
    requires HasRow(cols, 0)
    ensures Count(cols, 0, Up) == 0 && Count(cols, 0, Down) == 0
  {
    CountAbsent(cols, 0, Up);
    CountAbsent(cols, 0, Down);
  }

  /** Taking column `k` out removes its contribution and nothing else. */
  lemma CountRemove(b: seq<Column>, k: nat, i: nat, mv: Move)
    requires HasRow(b, i) && k < |b|
    ensures HasRow(b[..k] + b[k + 1..], i)
    ensures Count(b, i, mv) == (if MoveAt(b[k], i) == mv then 1 else 0) + Count(b[..k] + b[k + 1..], i, mv)
  {
    assert forall c :: c in b[..k] + b[k + 1..] ==> c in b;
    assert b == b[..k] + ([b[k]] + b[k + 1..]);
    CountAppend(b[..k], [b[k]] + b[k + 1..], i, mv);
    CountAppend(b[..k], b[k + 1..], i, mv);
  }

  lemma MultisetRemove(b: seq<Column>, k: nat)
    requires k < |b|
    ensures multiset(b[..k] + b[k + 1..]) == multiset(b) - multiset{b[k]}
  {
    assert b == b[..k] + [b[k]] + b[k + 1..];
    assert multiset(b) == multiset(b[..k]) + multiset{b[k]} + multiset(b[k + 1..]);
  }

  lemma HasRowPermutation(a: seq<Column>, b: seq<Column>, i: nat)
    requires HasRow(a, i)
    requires multiset(a) == multiset(b)
    ensures HasRow(b, i)
  {
    forall c | c in b
      ensures i < |c|
    {
      assert c in multiset(b);
      assert c in a;
    }
  }

  /** The counts do not depend on the order of the columns. */
  lemma {:induction false} CountPermutation(a: seq<Column>, b: seq<Column>, i: nat, mv: Move)
    requires HasRow(a, i)
    requires multiset(a) == multiset(b)
    ensures HasRow(b, i)
    ensures Count(a, i, mv) == Count(b, i, mv)
  {
    HasRowPermutation(a, b, i);
    if a == [] {
      assert |b| == |multiset(b)| == 0;
    } else {
      var x := a[0];
      assert x in multiset(b);
      var k :| 0 <= k < |b| && b[k] == x;
      var rest := b[..k] + b[k + 1..];
      MultisetRemove(b, k);
      assert a == [x] + a[1..];
      assert multiset(a[1..]) == multiset(rest);
      CountPermutation(a[1..], rest, i, mv);
      CountRemove(b, k, i, mv);
    }
  }

  /** `0 <= a / n <= 1` for `0 <= a <= n`, with the end points reached
      exactly at `a == 0` and `a == n`. */
  lemma FractionBounds(a: real, n: real)
    requires 0.0 <= a <= n && n > 0.0
    ensures 0.0 <= a / n <= 1.0
    ensures a / n == 0.0 <==> a == 0.0
    ensures a / n == 1.0 <==> a == n
  {
    var q := a / n;
    assert q * n == a;
  }

  /** The daily breadth ratio `rise / (rise + fall) - 0.5`. It is defined
      exactly when some column rose or fell (otherwise `0 / 0` is NaN); it
      lies in [-0.5, 0.5], is 0.5 exactly when no column fell and -0.5
      exactly when no column rose. */
  function Ratio(cols: seq<Column>, i: nat): (r: Option<real>)
    requires HasRow(cols, i)
    ensures r.Some? <==> Count(cols, i, Up) + Count(cols, i, Down) > 0
    ensures r.Some? ==> -0.5 <= r.value <= 0.5
    ensures r.Some? ==> (r.value == 0.5 <==> Count(cols, i, Down) == 0)
    ensures r.Some? ==> (r.value == -0.5 <==> Count(cols, i, Up) == 0)
  {
    var rise, fall := Count(cols, i, Up), Count(cols, i, Down);
    if rise + fall == 0 then None
    else
      FractionBounds(rise as real, (rise + fall) as real);
      Some(rise as real / (rise + fall) as real - 0.5)
  }

  /** The ratio does not depend on the order of the columns. */
  lemma RatioPermutation(a: seq<Column>, b: seq<Column>, i: nat)
    requires HasRow(a, i)
    requires multiset(a) == multiset(b)
    ensures HasRow(b, i)
    ensures Ratio(a, i) == Ratio(b, i)
  {
    CountPermutation(a, b, i, Up);
    CountPermutation(a, b, i, Down);
  }

  /** The ratio series `ind`, one entry per row. */
  function Ratios(m: Matrix): seq<Option<real>>
    requires WellFormed(m)
  {
    seq(|m.dates|, i requires 0 <= i < |m.dates| => Ratio(m.columns, i))
  }

  predicate AllDefined(xs: seq<Option<real>>)
  {
    forall k :: 0 <= k < |xs| ==> xs[k].Some?
  }

  function Total(xs: seq<Option<real>>): real
    requires AllDefined(xs)
  {
    if xs == [] then 0.0 else xs[0].value + Total(xs[1..])
  }

  /** `xs.rolling(w).mean()[-1]`: the mean of the last `w` entries; NaN when
      there are fewer than `w` entries or one of them is NaN. */
  function TrailingMean(xs: seq<Option<real>>, w: nat): Option<real>
    requires w > 0
  {
    if |xs| < w then None
    else
      var window := xs[|xs| - w..];
      if AllDefined(window) then Some(Total(window) / w as real) else None
  }

  lemma {:induction false} TotalBounds(xs: seq<Option<real>>, bound: real)
    requires AllDefined(xs)
    requires forall k :: 0 <= k < |xs| ==> -bound <= xs[k].value <= bound
    ensures -bound * |xs| as real <= Total(xs) <= bound * |xs| as real
  {
    if xs != [] {
      TotalBounds(xs[1..], bound);
    }
  }

  lemma MeanBound(t: real, n: real)
    requires n > 0.0 && -0.5 * n <= t <= 0.5 * n
    ensures -0.5 <= t / n <= 0.5
  {
    var q := t / n;
    assert q * n == t;
  }

  /** A trailing mean of breadth ratios stays in [-0.5, 0.5]. */
  lemma MeanOfRatiosInRange(m: Matrix, w: nat)
    requires WellFormed(m) && w > 0
    ensures TrailingMean(Ratios(m), w).Some? ==> -0.5 <= TrailingMean(Ratios(m), w).value <= 0.5
  {
    var xs := Ratios(m);
    if TrailingMean(xs, w).Some? {
      var window := xs[|xs| - w..];
      forall k | 0 <= k < |window|
        ensures -0.5 <= window[k].value <= 0.5
      {
        assert window[k] == Ratio(m.columns, |xs| - w + k);
      }
      TotalBounds(window, 0.5);
      MeanBound(Total(window), w as real);
    }
  }

  /** The long window, when defined, covers the short one, so the short
      mean is defined too. */
  lemma LongWindowCoversShort(xs: seq<Option<real>>)
    ensures TrailingMean(xs, LongWindow).Some? ==> TrailingMean(xs, ShortWindow).Some?
  {
    if TrailingMean(xs, LongWindow).Some? {
      var long := xs[|xs| - LongWindow..];
      assert forall k :: |xs| - ShortWindow <= k < |xs| ==> xs[k] == long[k - (|xs| - LongWindow)];
    }
  }

  /** `ind_s > ind_l` at the last row. Taking the last element of an empty
      series raises, so a matrix without rows gives no answer; a NaN mean
      compares false. */
  function Holdable(m: Matrix): (r: Option<bool>)
    requires WellFormed(m)
    ensures r.None? <==> |m.dates| == 0
  {
    if |m.dates| == 0 then None
    else
      var ind := Ratios(m);
      var short, long := TrailingMean(ind, ShortWindow), TrailingMean(ind, LongWindow);
      Some(short.Some? && long.Some? && short.value > long.value)
  }

  /** The signal is on exactly when the matrix has more than 120 rows, the
      last 120 ratios are all defined and the mean of the last 20 is
      strictly greater than the mean of the last 120 (equal means give
      false). The first row's ratio is never defined, so 120 rows or fewer
      are never enough, and one undefined ratio among the last 120 switches
      the signal off. */
  lemma HoldableIff(m: Matrix)
    requires WellFormed(m)
    ensures var ind, n := Ratios(m), |m.dates|;
      Holdable(m) == Some(true) <==>
        && n > LongWindow
        && AllDefined(ind[n - LongWindow..])
        && Total(ind[n - ShortWindow..]) / ShortWindow as real > Total(ind[n - LongWindow..]) / LongWindow as real
  {
    var ind, n := Ratios(m), |m.dates|;
    var short, long := TrailingMean(ind, ShortWindow), TrailingMean(ind, LongWindow);
    LongWindowCoversShort(ind);
    if long.Some? {
      LongWindowExcludesFirstRow(m);
      assert Holdable(m) == Some(short.value > long.value);
    } else if n > 0 {
      assert Holdable(m) == Some(false);
    }
  }

  /** A defined long mean needs more than 120 rows, since the first row's
      ratio is never defined. */
  lemma LongWindowExcludesFirstRow(m: Matrix)
    requires WellFormed(m)
    requires TrailingMean(Ratios(m), LongWindow).Some?
    ensures |m.dates| > LongWindow
  {
    var ind, n := Ratios(m), |m.dates|;
    FirstRowHasNoMoves(m.columns);
    assert ind[0].None?;
    assert ind[n - LongWindow..][0] == ind[n - LongWindow];
  }

  /** One undefined ratio among the last 120 rows makes the signal false. */
  lemma UndefinedRatioBlocksHolding(m: Matrix, i: nat)
    requires WellFormed(m)
    requires |m.dates| - LongWindow <= i < |m.dates|
    requires Ratio(m.columns, i).None?
    ensures Holdable(m) == Some(false)
  {
    var ind, n := Ratios(m), |m.dates|;
    HoldableIff(m);
    if n > LongWindow {
      assert ind[n - LongWindow..][i - (n - LongWindow)] == ind[i];
    }
  }

  /** The signal depends only on the multiset of columns, not on their
      order or labels. */
  lemma HoldablePermutation(m: Matrix, m': Matrix)
    requires WellFormed(m) && WellFormed(m')
    requires m'.dates == m.dates
    requires multiset(m.columns) == multiset(m'.columns)
    ensures Holdable(m) == Holdable(m')
  {
    forall i | 0 <= i < |m.dates|
      ensures Ratio(m.columns, i) == Ratio(m'.columns, i)
    {
      RatioPermutation(m.columns, m'.columns, i);
    }
    assert Ratios(m) == Ratios(m');
  }

  /** A column whose cells never change. */
  ghost predicate Unchanging(c: Column)
  {
    forall i :: 0 <= i < |c| ==> c[i] == c[0]
  }

  lemma {:induction false} UnchangingFilled(c: Column, i: nat)
    requires Unchanging(c) && i < |c|
    ensures Filled(c, i) == c[0]
  {
    if c[i].None? && i > 0 {
      UnchangingFilled(c, i - 1);
    }
  }

  /** When no price ever changes, no row has a rise or a fall, every ratio is
      `0 / 0`, and the signal is false (for a non-empty matrix). */
  lemma ConstantPricesNotHoldable(m: Matrix)
    requires WellFormed(m) && |m.dates| > 0
    requires forall c :: c in m.columns ==> Unchanging(c)
    ensures forall i :: 0 <= i < |m.dates| ==> Ratio(m.columns, i).None?
    ensures Holdable(m) == Some(false)
  {
    forall i | 0 <= i < |m.dates|
      ensures Ratio(m.columns, i).None?
    {
      forall c | c in m.columns
        ensures MoveAt(c, i) == Flat || MoveAt(c, i) == Unknown
      {
        if i > 0 {
          UnchangingFilled(c, i);
          UnchangingFilled(c, i - 1);
        }
      }
      CountAbsent(m.columns, i, Up);
      CountAbsent(m.columns, i, Down);
    }
    UndefinedRatioBlocksHolding(m, |m.dates| - 1);
  }
}
