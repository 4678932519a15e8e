/**
 * Feature and label stage: silver.prices to gold.features and gold.labels
 * (etl/generate_gold.py with src/features.py).
 *
 * The input is the frame fetched with ORDER BY ticker, date. The
 * benchmark's forward return is computed once and joined onto every other
 * ticker by date; each other ticker's rows get a trailing momentum, their own
 * forward return, the excess over the benchmark and the 0/1 hit label.
 * Per-ticker frames are collected in ticker order and concatenated.
 */
module Gold {
  import opened Wrappers
  import opened Seqs
  import opened Bronze
  import opened Silver
  import opened Series
  import opened Features

  /** BENCHMARK_TKR, RETURN_DAYS and HIT_THRESHOLD. */
  datatype Config = Config(benchmark: Ticker, horizon: nat, hitThreshold: real)

  /** The values the script uses. */
  const SourceConfig: Config := Config("SPY", 252, 0.02)

  /** A row of gold.features: the index `date` and the feature columns (the frame has no ticker column). */
  datatype FeatureRow = FeatureRow(
    date: Date,
    open: real,
    high: real,
    low: real,
    close: real,
    adjClose: real,
    volume: int,
    momentum12m: Option<real>)

  /** A row of gold.labels. */
  datatype LabelRow = LabelRow(
    date: Date,
    ticker: Ticker,
    stockFwdRet: Option<real>,
    spyFwdRet: Option<real>,
    excessReturn12m: Option<real>,
    hit2pct: int)

  /** The two frames one ticker contributes. */
  datatype GroupOutput = GroupOutput(features: seq<FeatureRow>, labels: seq<LabelRow>)

  datatype GoldTables = GoldTables(features: seq<FeatureRow>, labels: seq<LabelRow>)

  /** `pd.concat` of an empty list raises. */
  datatype GoldError = NoObjectsToConcatenate

  /** A row of the benchmark frame: its date index and `spy_fwd_ret`. */
  datatype SpyEntry = SpyEntry(date: Date, spyFwdRet: Option<real>)

  predicate NonZeroAdj(rows: seq<SilverRow>)
  {
    forall r | r in rows :: r.row.adjClose != 0.0
  }

  /** The `adj_close` column. */
  function AdjCloses(rows: seq<SilverRow>): (xs: seq<real>)
    ensures |xs| == |rows|
    ensures NonZeroAdj(rows) ==> NonZero(xs)
  {
    seq(|rows|, i requires 0 <= i < |rows| => rows[i].row.adjClose)
  }

  /** The rows whose ticker is `t` (when `same`) or is not `t` (otherwise), in input order. */
  function Select(rows: seq<SilverRow>, t: Ticker, same: bool): (sel: seq<SilverRow>)
    ensures |sel| <= |rows|
    ensures forall r :: r in sel <==> r in rows && (r.row.ticker == t) == same
  {
    if rows == [] then []
    else
      var init, last := rows[..|rows| - 1], rows[|rows| - 1];
      assert rows == init + [last];
      if (last.row.ticker == t) == same then Select(init, t, same) + [last] else Select(init, t, same)
  }

  /** `df[df["ticker"] == BENCHMARK_TKR]`. */
  function BenchmarkRows(rows: seq<SilverRow>, cfg: Config): seq<SilverRow>
  {
    Select(rows, cfg.benchmark, true)
  }

  /** The rows of every ticker but the benchmark: what the output is made of. */
  function Kept(rows: seq<SilverRow>, cfg: Config): seq<SilverRow>
  {
    Select(rows, cfg.benchmark, false)
  }

  /**
   * The benchmark frame indexed by date with its forward return: the return
   * from the benchmark's j-th row to its (j + H)-th, stored at the j-th date,
   * missing for its last H rows.
   */
  function BenchmarkTable(rows: seq<SilverRow>, cfg: Config): (table: seq<SpyEntry>)
    requires NonZeroAdj(rows)
    ensures |table| == |BenchmarkRows(rows, cfg)|
  {
    var spy := BenchmarkRows(rows, cfg);
    var fwd := ForwardReturn(AdjCloses(spy), cfg.horizon);
    seq(|spy|, j requires 0 <= j < |spy| => SpyEntry(spy[j].row.date, fwd[j]))
  }

  /**
   * Entry j of the benchmark frame: the date of the benchmark's j-th row and
   * the return from that row to the one H rows later, missing for the last H.
   */
  lemma BenchmarkTableAt(rows: seq<SilverRow>, cfg: Config, j: nat)
    requires NonZeroAdj(rows)
    requires j < |BenchmarkRows(rows, cfg)|
    ensures var spy := BenchmarkRows(rows, cfg);
      var table := BenchmarkTable(rows, cfg);
      && table[j].date == spy[j].row.date
      && table[j].spyFwdRet ==
        if j + cfg.horizon < |spy|
        then Some(Growth(spy[j].row.adjClose, spy[j + cfg.horizon].row.adjClose))
        else None
  {
    var spy := BenchmarkRows(rows, cfg);
    var adj := AdjCloses(spy);
    assert adj[j] == spy[j].row.adjClose;
    if j + cfg.horizon < |spy| {
      assert adj[j + cfg.horizon] == spy[j + cfg.horizon].row.adjClose;
    }
  }

  predicate UniqueDates(table: seq<SpyEntry>)
  {
    forall i, j :: 0 <= i < j < |table| ==> table[i].date != table[j].date
  }

  /**
   * The left join on the date index for one date: the benchmark's value at
   * that date, missing when the benchmark has no row there.
   */
  function SpyLookup(table: seq<SpyEntry>, d: Date): (r: Option<real>)
    ensures (forall j :: 0 <= j < |table| ==> table[j].date != d) ==> r == None
    ensures UniqueDates(table) ==>
      forall j :: 0 <= j < |table| && table[j].date == d ==> r == table[j].spyFwdRet
  {
    if table == [] then None
    else if table[0].date == d then table[0].spyFwdRet
    else
      var r := SpyLookup(table[1..], d);
      assert forall j :: 1 <= j < |table| ==> table[j] == table[1..][j - 1];
      r
  }

  /** `(excess_return_12m >= HIT_THRESHOLD).astype(int)`: a missing excess compares false. */
  function HitLabel(excess: Option<real>, threshold: real): (hit: int)
    ensures hit == 0 || hit == 1
    ensures hit == 1 <==> excess.Some? && excess.value >= threshold
  {
    if excess.Some? && excess.value >= threshold then 1 else 0
  }

  predicate FeatureMirrors(f: FeatureRow, s: SilverRow)
  {
    && f.date == s.row.date
    && f.open == s.row.open
    && f.high == s.row.high
    && f.low == s.row.low
    && f.close == s.row.close
    && f.adjClose == s.row.adjClose
    && f.volume == s.row.volume
  }

  predicate LabelKeyed(l: LabelRow, s: SilverRow)
  {
    l.date == s.row.date && l.ticker == s.row.ticker
  }

  /**
   * The body of the per-ticker loop for one ticker's rows in date order:
   * momentum, own forward return, join of the benchmark's forward return by
   * date, excess return and hit label, and the two frames it appends. What
   * each row holds is stated by `ProcessGroupRows`.
   */
  function ProcessGroup(g: seq<SilverRow>, table: seq<SpyEntry>, cfg: Config): (out: GroupOutput)
    requires NonZeroAdj(g)
    ensures |out.features| == |g| && |out.labels| == |g|
  {
    var adj := AdjCloses(g);
    var momentum := Momentum12m(adj);
    var stock := ForwardReturn(adj, cfg.horizon);
    var spy := seq(|g|, t requires 0 <= t < |g| => SpyLookup(table, g[t].row.date));
    var excess := seq(|g|, t requires 0 <= t < |g| => ComputeExcessReturn(stock[t], spy[t]));
    var features := seq(|g|, t requires 0 <= t < |g| =>
      var r := g[t].row;
      FeatureRow(r.date, r.open, r.high, r.low, r.close, r.adjClose, r.volume, momentum[t]));
    var labels := seq(|g|, t requires 0 <= t < |g| =>
      LabelRow(g[t].row.date, g[t].row.ticker, stock[t], spy[t], excess[t],
               HitLabel(excess[t], cfg.hitThreshold)));
    GroupOutput(features, labels)
  }

  /**
   * Row t of a ticker's frames: its own prices and key, momentum over the 252
   * previous positions (missing for the first 252), forward return over the
   * next H positions (missing for the last H), the benchmark's value joined
   * on its date, their difference when both exist, and a hit exactly when
   * that difference exists and reaches the threshold.
   */
  lemma ProcessGroupRows(g: seq<SilverRow>, table: seq<SpyEntry>, cfg: Config, t: nat)
    requires NonZeroAdj(g)
    requires t < |g|
    ensures var out := ProcessGroup(g, table, cfg);
      && FeatureMirrors(out.features[t], g[t])
      && LabelKeyed(out.labels[t], g[t])
      && out.features[t].momentum12m ==
        (if t >= MomentumWindow
         then Some(Growth(g[t - MomentumWindow].row.adjClose, g[t].row.adjClose))
         else None)
      && out.labels[t].stockFwdRet ==
        (if t + cfg.horizon < |g|
         then Some(Growth(g[t].row.adjClose, g[t + cfg.horizon].row.adjClose))
         else None)
      && out.labels[t].spyFwdRet == SpyLookup(table, g[t].row.date)
    ensures var l := ProcessGroup(g, table, cfg).labels[t];
      && (l.excessReturn12m.Some? <==> l.stockFwdRet.Some? && l.spyFwdRet.Some?)
      && (l.excessReturn12m.Some? ==> l.excessReturn12m.value == l.stockFwdRet.value - l.spyFwdRet.value)
      && (l.hit2pct == 1 <==> l.excessReturn12m.Some? && l.excessReturn12m.value >= cfg.hitThreshold)
      && (l.hit2pct == 0 || l.hit2pct == 1)
  {
    var adj := AdjCloses(g);
    assert adj[t] == g[t].row.adjClose;
    if t >= MomentumWindow {
      assert adj[t - MomentumWindow] == g[t - MomentumWindow].row.adjClose;
    }
    if t + cfg.horizon < |g| {
      assert adj[t + cfg.horizon] == g[t + cfg.horizon].row.adjClose;
    }
  }

  /**
   * Code-point lexicographic order on tickers: the order of ORDER BY ticker
   * and of the sorted groups of `groupby`.
   */
  predicate TickerLt(a: Ticker, b: Ticker)
  {
    if a == [] then b != []
    else if b == [] then false
    else a[0] < b[0] || (a[0] == b[0] && TickerLt(a[1..], b[1..]))
  }

  /** (ticker, date) order. */
  predicate KeyLt(x: SilverRow, y: SilverRow)
  {
    TickerLt(x.row.ticker, y.row.ticker) || (x.row.ticker == y.row.ticker && x.row.date < y.row.date)
  }

  /**
   * The frame as `ORDER BY ticker, date` returns it from a table with one row
   * per (ticker, date): strictly increasing keys.
   */
  predicate StrictlySorted(rows: seq<SilverRow>)
  {
    forall i, j :: 0 <= i < j < |rows| ==> KeyLt(rows[i], rows[j])
  }

  /** The length of the run of rows sharing the first row's ticker. */
  function RunLength(rows: seq<SilverRow>): (n: nat)
    requires rows != []
    ensures 1 <= n <= |rows|
    ensures forall i :: 0 <= i < n ==> rows[i].row.ticker == rows[0].row.ticker
    ensures n < |rows| ==> rows[n].row.ticker != rows[0].row.ticker
  {
    if |rows| == 1 || rows[1].row.ticker != rows[0].row.ticker then 1
    else 1 + RunLength(rows[1..])
  }

  /**
   * `df.groupby("ticker")` over the frame: the maximal runs of equal ticker,
   * in order. On a frame sorted by ticker these are exactly pandas' groups in
   * ticker order (GoldProperties.GroupsAreTickerGroups).
   */
  function Groups(rows: seq<SilverRow>): (gs: seq<seq<SilverRow>>)
    ensures forall k :: 0 <= k < |gs| ==> gs[k] != []
    ensures forall k, i :: 0 <= k < |gs| && 0 <= i < |gs[k]| ==> gs[k][i].row.ticker == gs[k][0].row.ticker
    decreases |rows|
  {
    if rows == [] then []
    else
      var n := RunLength(rows);
      [rows[..n]] + Groups(rows[n..])
  }

  /** The groups, concatenated in order, are the frame: no row is lost, repeated or moved. */
  lemma {:induction false} GroupsCover(rows: seq<SilverRow>)
    ensures Concat(Groups(rows)) == rows
    decreases |rows|
  {
    if rows != [] {
      var n := RunLength(rows);
      assert Groups(rows) == [rows[..n]] + Groups(rows[n..]);
      GroupsCover(rows[n..]);
      ConcatPrepend(rows[..n], Groups(rows[n..]));
      assert rows[..n] + rows[n..] == rows;
    }
  }

  predicate IsBenchmarkGroup(g: seq<SilverRow>, cfg: Config)
  {
    g != [] && g[0].row.ticker == cfg.benchmark
  }

  /** The groups the loop does not skip, in order. */
  function NonBenchmarkGroups(gs: seq<seq<SilverRow>>, cfg: Config): (kept: seq<seq<SilverRow>>)
    ensures |kept| <= |gs|
    ensures forall g :: g in kept <==> g in gs && !IsBenchmarkGroup(g, cfg)
  {
    if gs == [] then []
    else
      var init, last := gs[..|gs| - 1], gs[|gs| - 1];
      assert gs == init + [last];
      if IsBenchmarkGroup(last, cfg) then NonBenchmarkGroups(init, cfg)
      else NonBenchmarkGroups(init, cfg) + [last]
  }

  lemma NonBenchmarkGroupsSnoc(gs: seq<seq<SilverRow>>, g: seq<SilverRow>, cfg: Config)
    ensures NonBenchmarkGroups(gs + [g], cfg) ==
      if IsBenchmarkGroup(g, cfg) then NonBenchmarkGroups(gs, cfg) else NonBenchmarkGroups(gs, cfg) + [g]
  {
    assert (gs + [g])[..|gs|] == gs;
  }

  predicate AllNonZeroAdj(gs: seq<seq<SilverRow>>)
  {
    forall g | g in gs :: NonZeroAdj(g)
  }

  /** `features_list`: one feature frame per group, in group order. */
  function FeatureFrames(gs: seq<seq<SilverRow>>, table: seq<SpyEntry>, cfg: Config): (frames: seq<seq<FeatureRow>>)
    requires AllNonZeroAdj(gs)
    ensures |frames| == |gs|
  {
    if gs == [] then []
    else FeatureFrames(gs[..|gs| - 1], table, cfg) + [ProcessGroup(gs[|gs| - 1], table, cfg).features]
  }

  /** `labels_list`: one label frame per group, in group order. */
  function LabelFrames(gs: seq<seq<SilverRow>>, table: seq<SpyEntry>, cfg: Config): (frames: seq<seq<LabelRow>>)
    requires AllNonZeroAdj(gs)
    ensures |frames| == |gs|
  {
    if gs == [] then []
    else LabelFrames(gs[..|gs| - 1], table, cfg) + [ProcessGroup(gs[|gs| - 1], table, cfg).labels]
  }

  lemma FramesSnoc(gs: seq<seq<SilverRow>>, g: seq<SilverRow>, table: seq<SpyEntry>, cfg: Config)
    requires AllNonZeroAdj(gs) && NonZeroAdj(g)
    ensures AllNonZeroAdj(gs + [g])
    ensures FeatureFrames(gs + [g], table, cfg) == FeatureFrames(gs, table, cfg) + [ProcessGroup(g, table, cfg).features]
    ensures LabelFrames(gs + [g], table, cfg) == LabelFrames(gs, table, cfg) + [ProcessGroup(g, table, cfg).labels]
  {
    assert (gs + [g])[..|gs|] == gs;
  }

  /** Each group's rows are rows of the frame, so a non-zero adjusted close carries over. */
  lemma GroupsNonZero(rows: seq<SilverRow>)
    requires NonZeroAdj(rows)
    ensures AllNonZeroAdj(Groups(rows))
  {
    var gs := Groups(rows);
    GroupsCover(rows);
    forall g, r | g in gs && r in g
      ensures r.row.adjClose != 0.0
    {
      var k :| 0 <= k < |gs| && gs[k] == g;
      ConcatMember(gs, k, r);
    }
  }

  /** The whole stage as a value: the two concatenated tables, or the error of an empty concatenation. */
  function BuildGold(rows: seq<SilverRow>, cfg: Config): Result<GoldTables, GoldError>
    requires NonZeroAdj(rows)
  {
    var table := BenchmarkTable(rows, cfg);
    GroupsNonZero(rows);
    var gs := NonBenchmarkGroups(Groups(rows), cfg);
    if gs == [] then Failure(NoObjectsToConcatenate)
    else Success(GoldTables(Concat(FeatureFrames(gs, table, cfg)), Concat(LabelFrames(gs, table, cfg))))
  }

  /**
   * The script's main loop: skip the benchmark group, process every other
   * group and append its two frames, then concatenate each list.
   */
  method GenerateGold(rows: seq<SilverRow>, cfg: Config) returns (res: Result<GoldTables, GoldError>)
    requires NonZeroAdj(rows)
    ensures res == BuildGold(rows, cfg)
  {
    var table := BenchmarkTable(rows, cfg);
    var groups := Groups(rows);
    GroupsNonZero(rows);
    var featuresList: seq<seq<FeatureRow>> := [];
    var labelsList: seq<seq<LabelRow>> := [];
    ghost var processed: seq<seq<SilverRow>> := [];
    for k := 0 to |groups|
      invariant processed == NonBenchmarkGroups(groups[..k], cfg)
      invariant AllNonZeroAdj(processed)
      invariant featuresList == FeatureFrames(processed, table, cfg)
      invariant labelsList == LabelFrames(processed, table, cfg)
    {
      var group := groups[k];
      assert group != [];
      assert group in groups;
      NonBenchmarkGroupsSnoc(groups[..k], group, cfg);
      TakeSnoc(groups, k);
      if group[0].row.ticker != cfg.benchmark {
        var out := ProcessGroup(group, table, cfg);
        FramesSnoc(processed, group, table, cfg);
        featuresList := featuresList + [out.features];
        labelsList := labelsList + [out.labels];
        processed := processed + [group];
      }
    }
    assert groups[..|groups|] == groups;
    if featuresList == [] {
      res := Failure(NoObjectsToConcatenate);
    } else {
      res := Success(GoldTables(Concat(featuresList), Concat(labelsList)));
    }
  }
}
