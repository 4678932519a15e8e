/**
 * Stabilisation stage: bronze.prices to silver.prices (etl/silver_transform.py).
 *
 * The table is loaded into a frame, stamped with `valid_from = date` and an
 * open `valid_to`, and then each of the five price columns in turn is
 * overwritten with its values clipped to [mu - 3 sigma, mu + 3 sigma], where
 * mu and sigma are that column's statistics over the whole table, all
 * tickers pooled. The frame is an array of rows updated in place. The mean
 * is computed exactly; the standard deviation needs a square root and is a
 * parameter.
 */
module Silver {
  import opened Wrappers
  import opened Bronze

  /** SIGMA, the winsorisation threshold in standard deviations. */
  const Sigma: real := 3.0

  /** A bronze row with its point-in-time validity columns. */
  datatype SilverRow = SilverRow(row: Row, validFrom: Date, validTo: Option<Date>)

  /** The columns of `num_cols`, in the order the loop visits them. */
  datatype Column = Open | High | Low | Close | AdjClose

  const PriceColumns: seq<Column> := [Open, High, Low, Close, AdjClose]

  /** The position of a column in `PriceColumns`. */
  function Rank(c: Column): (k: nat)
    ensures k < |PriceColumns| && PriceColumns[k] == c
  {
    match c
    case Open => 0
    case High => 1
    case Low => 2
    case Close => 3
    case AdjClose => 4
  }

  function Price(r: Row, c: Column): real
  {
    match c
    case Open => r.open
    case High => r.high
    case Low => r.low
    case Close => r.close
    case AdjClose => r.adjClose
  }

  /** `df[col] = v` for one row: column `c` becomes `v`, every other field is kept. */
  function SetPrice(r: Row, c: Column, v: real): (r': Row)
    ensures Price(r', c) == v
    ensures forall d :: d != c ==> Price(r', d) == Price(r, d)
    ensures r'.date == r.date && r'.ticker == r.ticker && r'.volume == r.volume
  {
    match c
    case Open => r.(open := v)
    case High => r.(high := v)
    case Low => r.(low := v)
    case Close => r.(close := v)
    case AdjClose => r.(adjClose := v)
  }

  /** `valid_from = date`, `valid_to = NaT`. */
  function Stamp(r: Row): (s: SilverRow)
    ensures s.row == r && s.validFrom == r.date && s.validTo.None?
  {
    SilverRow(r, r.date, None)
  }

  function Stamped(rows: seq<Row>): (stamped: seq<SilverRow>)
    ensures |stamped| == |rows|
  {
    seq(|rows|, i requires 0 <= i < |rows| => Stamp(rows[i]))
  }

  /** Both columns added to every row, nothing else changed, no row added or dropped. */
  lemma StampedRow(rows: seq<Row>, i: nat)
    requires i < |rows|
    ensures |Stamped(rows)| == |rows|
    ensures Stamped(rows)[i].row == rows[i]
    ensures Stamped(rows)[i].validFrom == rows[i].date && Stamped(rows)[i].validTo.None?
  {
  }

  /** The values of column `c`, one per row. */
  function ColumnOf(rows: seq<SilverRow>, c: Column): seq<real>
  {
    seq(|rows|, i requires 0 <= i < |rows| => Price(rows[i].row, c))
  }

  function Sum(xs: seq<real>): real
  {
    if xs == [] then 0.0 else Sum(xs[..|xs| - 1]) + xs[|xs| - 1]
  }

  /** The exact arithmetic mean; an empty column has nothing to clip, so its value is immaterial. */
  function Mean(xs: seq<real>): real
  {
    if xs == [] then 0.0 else Sum(xs) / (|xs| as real)
  }

  /** mu - SIGMA * sigma for column `c` of the whole table. */
  function Lower(rows: seq<SilverRow>, c: Column, sigma: Column -> real): real
  {
    Mean(ColumnOf(rows, c)) - Sigma * sigma(c)
  }

  /** mu + SIGMA * sigma for column `c` of the whole table. */
  function Upper(rows: seq<SilverRow>, c: Column, sigma: Column -> real): real
  {
    Mean(ColumnOf(rows, c)) + Sigma * sigma(c)
  }

  function Min(a: real, b: real): real { if a <= b then a else b }

  function Max(a: real, b: real): real { if a <= b then b else a }

  /**
   * `Series.clip(lower, upper)` on one value. Scalar bounds given in the wrong
   * order are swapped first; then values below the band become its lower
   * end, values above it its upper end, and the rest are kept.
   */
  function Clip(x: real, lower: real, upper: real): (r: real)
    ensures Min(lower, upper) <= r <= Max(lower, upper)
    ensures Min(lower, upper) <= x <= Max(lower, upper) ==> r == x
    ensures x < Min(lower, upper) ==> r == Min(lower, upper)
    ensures x > Max(lower, upper) ==> r == Max(lower, upper)
  {
    var lo, hi := Min(lower, upper), Max(lower, upper);
    var y := if x >= lo then x else lo;
    if y <= hi then y else hi
  }

  lemma ClipMonotone(x: real, y: real, lower: real, upper: real)
    requires x <= y
    ensures Clip(x, lower, upper) <= Clip(y, lower, upper)
  {
  }

  lemma ClipIdempotent(x: real, lower: real, upper: real)
    ensures Clip(Clip(x, lower, upper), lower, upper) == Clip(x, lower, upper)
  {
  }

  /** Column `c` of row `r` clipped to the band of `rows` when `c` is among the first `k` columns. */
  function ClipIf(r: Row, rows: seq<SilverRow>, sigma: Column -> real, k: nat, c: Column): real
  {
    if Rank(c) < k then Clip(Price(r, c), Lower(rows, c, sigma), Upper(rows, c, sigma))
    else Price(r, c)
  }

  /** Row `s` after the loop has handled the first `k` columns, with bands taken from `rows`. */
  function ClipUpTo(s: SilverRow, rows: seq<SilverRow>, sigma: Column -> real, k: nat): SilverRow
  {
    var r := s.row;
    s.(row := r.(
      open := ClipIf(r, rows, sigma, k, Open),
      high := ClipIf(r, rows, sigma, k, High),
      low := ClipIf(r, rows, sigma, k, Low),
      close := ClipIf(r, rows, sigma, k, Close),
      adjClose := ClipIf(r, rows, sigma, k, AdjClose)))
  }

  /** Every price column clipped to the band of its own values in `rows`. */
  function Winsorized(rows: seq<SilverRow>, sigma: Column -> real): seq<SilverRow>
  {
    seq(|rows|, i requires 0 <= i < |rows| => ClipUpTo(rows[i], rows, sigma, |PriceColumns|))
  }

  lemma PriceOfClipUpTo(s: SilverRow, rows: seq<SilverRow>, sigma: Column -> real, k: nat, c: Column)
    ensures Price(ClipUpTo(s, rows, sigma, k).row, c) == ClipIf(s.row, rows, sigma, k, c)
    ensures ClipUpTo(s, rows, sigma, k).row.date == s.row.date
    ensures ClipUpTo(s, rows, sigma, k).row.ticker == s.row.ticker
    ensures ClipUpTo(s, rows, sigma, k).row.volume == s.row.volume
    ensures ClipUpTo(s, rows, sigma, k).validFrom == s.validFrom
    ensures ClipUpTo(s, rows, sigma, k).validTo == s.validTo
  {
  }

  /**
   * While the loop is at column k, that column still holds its pre-clip
   * values: clipping the earlier columns did not touch it.
   */
  lemma ColumnNotYetClipped(cur: seq<SilverRow>, orig: seq<SilverRow>, sigma: Column -> real, k: nat)
    requires k < |PriceColumns|
    requires |cur| == |orig|
    requires forall i :: 0 <= i < |cur| ==> cur[i] == ClipUpTo(orig[i], orig, sigma, k)
    ensures ColumnOf(cur, PriceColumns[k]) == ColumnOf(orig, PriceColumns[k])
  {
    var c := PriceColumns[k];
    forall i | 0 <= i < |cur|
      ensures ColumnOf(cur, c)[i] == ColumnOf(orig, c)[i]
    {
      PriceOfClipUpTo(orig[i], orig, sigma, k, c);
    }
  }

  /** Row `s` with column `c` alone clipped to the band [lower, upper]. */
  function ClipColumnOf(s: SilverRow, c: Column, lower: real, upper: real): SilverRow
  {
    s.(row := SetPrice(s.row, c, Clip(Price(s.row, c), lower, upper)))
  }

  /** Clipping column k of a row on which the first k columns are done gives the row with k + 1 done. */
  lemma ClipStep(s: SilverRow, orig: seq<SilverRow>, sigma: Column -> real, k: nat)
    requires k < |PriceColumns|
    ensures
      var c := PriceColumns[k];
      ClipColumnOf(ClipUpTo(s, orig, sigma, k), c, Lower(orig, c, sigma), Upper(orig, c, sigma))
      == ClipUpTo(s, orig, sigma, k + 1)
  {
  }

  /** `df[col].mean()`, summing the column front to back. */
  method ColumnMean(a: array<SilverRow>, c: Column) returns (mu: real)
    ensures mu == Mean(ColumnOf(a[..], c))
  {
    var sum := 0.0;
    for i := 0 to a.Length
      invariant sum == Sum(ColumnOf(a[..i], c))
    {
      assert ColumnOf(a[..i + 1], c)[..i] == ColumnOf(a[..i], c);
      sum := sum + Price(a[i].row, c);
    }
    assert a[..a.Length] == a[..];
    mu := if a.Length == 0 then 0.0 else sum / (a.Length as real);
  }

  /** `df[col] = df[col].clip(lower, upper)`: column `c` of every row clipped, row by row, the rest kept. */
  method ClipInPlace(a: array<SilverRow>, c: Column, lower: real, upper: real)
    modifies a
    ensures forall i :: 0 <= i < a.Length ==> a[i] == ClipColumnOf(old(a[i]), c, lower, upper)
  {
    for i := 0 to a.Length
      invariant forall j :: 0 <= j < i ==> a[j] == ClipColumnOf(old(a[j]), c, lower, upper)
      invariant forall j :: i <= j < a.Length ==> a[j] == old(a[j])
    {
      a[i] := ClipColumnOf(a[i], c, lower, upper);
    }
  }

  /**
   * One pass of the `for col in num_cols` loop: the column's mean taken from
   * the frame as it stands, then every row's value clipped in place.
   */
  method ClipColumn(a: array<SilverRow>, ghost orig: seq<SilverRow>, sigma: Column -> real, k: nat)
    requires k < |PriceColumns|
    requires |orig| == a.Length
    requires forall i :: 0 <= i < a.Length ==> a[i] == ClipUpTo(orig[i], orig, sigma, k)
    modifies a
    ensures forall i :: 0 <= i < a.Length ==> a[i] == ClipUpTo(orig[i], orig, sigma, k + 1)
  {
    var col := PriceColumns[k];
    ColumnNotYetClipped(a[..], orig, sigma, k);
    var mu := ColumnMean(a, col);
    var lower, upper := mu - Sigma * sigma(col), mu + Sigma * sigma(col);
    assert lower == Lower(orig, col, sigma) && upper == Upper(orig, col, sigma);
    ClipInPlace(a, col, lower, upper);
    forall i | 0 <= i < a.Length
      ensures a[i] == ClipUpTo(orig[i], orig, sigma, k + 1)
    {
      ClipStep(orig[i], orig, sigma, k);
    }
  }

  /**
   * The `for col in num_cols` loop: each column in turn gets its mean from
   * the frame as it stands and is overwritten with its clipped values. The
   * result is every column clipped to the band of its own pre-clip values.
   */
  method WinsorizeInPlace(a: array<SilverRow>, sigma: Column -> real)
    modifies a
    ensures a[..] == Winsorized(old(a[..]), sigma)
  {
    ghost var orig := a[..];
    for k := 0 to |PriceColumns|
      invariant forall i :: 0 <= i < a.Length ==> a[i] == ClipUpTo(orig[i], orig, sigma, k)
    {
      ClipColumn(a, orig, sigma, k);
    }
  }

  /**
   * The whole stage: one silver row per bronze row, in the same order, with
   * the validity stamp, the non-price fields untouched and each price
   * clipped to the band of its column over the whole input.
   */
  method Stabilize(bronze: seq<Row>, sigma: Column -> real) returns (silver: array<SilverRow>)
    ensures fresh(silver)
    ensures silver.Length == |bronze|
    ensures forall i :: 0 <= i < |bronze| ==>
      && silver[i].validFrom == bronze[i].date
      && silver[i].validTo == None
      && silver[i].row.date == bronze[i].date
      && silver[i].row.ticker == bronze[i].ticker
      && silver[i].row.volume == bronze[i].volume
    ensures forall i, c :: 0 <= i < |bronze| ==>
      Price(silver[i].row, c)
      == Clip(Price(bronze[i], c), Lower(Stamped(bronze), c, sigma), Upper(Stamped(bronze), c, sigma))
    ensures forall i, c :: 0 <= i < |bronze| && sigma(c) >= 0.0 ==>
      Lower(Stamped(bronze), c, sigma) <= Price(silver[i].row, c) <= Upper(Stamped(bronze), c, sigma)
  {
    silver := new SilverRow[|bronze|](i requires 0 <= i < |bronze| => Stamp(bronze[i]));
    assert silver[..] == Stamped(bronze);
    WinsorizeInPlace(silver, sigma);
    forall i | 0 <= i < |bronze|
      ensures silver[i] == Winsorized(Stamped(bronze), sigma)[i]
    {
    }
    forall i | 0 <= i < |bronze|
      ensures StabilizedFrom(silver[i], bronze, sigma, i)
    {
      StabilizedRow(bronze, sigma, i);
    }
  }

  /** Row i of the stage's output, as the contract of `Stabilize` describes it. */
  predicate StabilizedFrom(s: SilverRow, bronze: seq<Row>, sigma: Column -> real, i: nat)
    requires i < |bronze|
  {
    && s.validFrom == bronze[i].date
    && s.validTo == None
    && s.row.date == bronze[i].date
    && s.row.ticker == bronze[i].ticker
    && s.row.volume == bronze[i].volume
    && (forall c ::
          Price(s.row, c) == Clip(Price(bronze[i], c), Lower(Stamped(bronze), c, sigma), Upper(Stamped(bronze), c, sigma)))
  }

  /** The winsorised stamped table, row by row. */
  lemma StabilizedRow(bronze: seq<Row>, sigma: Column -> real, i: nat)
    requires i < |bronze|
    ensures |Winsorized(Stamped(bronze), sigma)| == |bronze|
    ensures StabilizedFrom(Winsorized(Stamped(bronze), sigma)[i], bronze, sigma, i)
  {
    var st := Stamped(bronze);
    StampedRow(bronze, i);
    forall c
      ensures Price(Winsorized(st, sigma)[i].row, c)
        == Clip(Price(bronze[i], c), Lower(st, c, sigma), Upper(st, c, sigma))
    {
      PriceOfClipUpTo(st[i], st, sigma, |PriceColumns|, c);
    }
    PriceOfClipUpTo(st[i], st, sigma, |PriceColumns|, Open);
  }

  lemma {:induction false} SumPositive(xs: seq<real>)
    requires xs != []
    requires forall i :: 0 <= i < |xs| ==> xs[i] > 0.0
    ensures Sum(xs) > 0.0
  {
    if |xs| > 1 {
      SumPositive(xs[..|xs| - 1]);
    }
  }

  /**
   * With a non-negative sigma, a column whose input values are all positive
   * stays positive after clipping: the upper end of the band is above the
   * (positive) mean.
   */
  lemma WinsorizeKeepsPositive(rows: seq<SilverRow>, sigma: Column -> real, c: Column)
    requires forall i :: 0 <= i < |rows| ==> Price(rows[i].row, c) > 0.0
    requires sigma(c) >= 0.0
    ensures forall i :: 0 <= i < |rows| ==>
      Clip(Price(rows[i].row, c), Lower(rows, c, sigma), Upper(rows, c, sigma)) > 0.0
  {
    if rows != [] {
      SumPositive(ColumnOf(rows, c));
      assert Mean(ColumnOf(rows, c)) > 0.0;
    }
  }

  lemma MeanOfOne(x: real)
    ensures Mean([x]) == x
  {
    assert [x][..0] == [];
    assert Sum([x]) == x;
  }

  /**
   * A one-row table keeps its values for any sigma, since the band is centred
   * on the value itself; so the case where pandas' sample deviation is NaN
   * (fewer than two rows, no clipping) agrees with the model.
   */
  lemma SingleRowUnchanged(s: SilverRow, sigma: Column -> real)
    ensures Winsorized([s], sigma) == [s]
  {
    forall c
      ensures Mean(ColumnOf([s], c)) == Price(s.row, c)
    {
      assert ColumnOf([s], c) == [Price(s.row, c)];
      MeanOfOne(Price(s.row, c));
    }
  }
}
