/**
 * What the feature and label stage guarantees about its two tables: row
 * alignment, the benchmark's absence, per-ticker row counts, (ticker, date)
 * order, positional censoring, the join of the benchmark by date, and the
 * meaning of `groupby` on the ordered frame.
 */
module GoldProperties {
  import opened Wrappers
  import opened Seqs
  import opened Bronze
  import opened Silver
  import opened Series
  import opened Features
  import opened Gold

  // ---------------------------------------------------------------------------
  // Ticker order

  lemma {:induction false} TickerLtIrreflexive(a: Ticker)
    ensures !TickerLt(a, a)
  {
    if a != [] {
      TickerLtIrreflexive(a[1..]);
    }
  }

  lemma TickerLtDistinct(a: Ticker, b: Ticker)
    requires TickerLt(a, b)
    ensures a != b
  {
    TickerLtIrreflexive(a);
  }

  lemma {:induction false} TickerLtAsymmetric(a: Ticker, b: Ticker)
    ensures !(TickerLt(a, b) && TickerLt(b, a))
  {
    if a != [] && b != [] && a[0] == b[0] {
      TickerLtAsymmetric(a[1..], b[1..]);
    }
  }

  // ---------------------------------------------------------------------------
  // Selecting rows by ticker

  lemma {:induction false} SelectAppend(a: seq<SilverRow>, b: seq<SilverRow>, t: Ticker, same: bool)
    ensures Select(a + b, t, same) == Select(a, t, same) + Select(b, t, same)
    decreases |b|
  {
    if b == [] {
      assert a + b == a;
    } else {
      var init := b[..|b| - 1];
      assert (a + b)[..|a + b| - 1] == a + init;
      SelectAppend(a, init, t, same);
    }
  }

  lemma {:induction false} SelectAll(rows: seq<SilverRow>, t: Ticker, same: bool)
    requires forall r | r in rows :: (r.row.ticker == t) == same
    ensures Select(rows, t, same) == rows
  {
    if rows != [] {
      var init := rows[..|rows| - 1];
      assert rows == init + [rows[|rows| - 1]];
      SelectAll(init, t, same);
    }
  }

  lemma {:induction false} SelectNone(rows: seq<SilverRow>, t: Ticker, same: bool)
    requires forall r | r in rows :: (r.row.ticker == t) != same
    ensures Select(rows, t, same) == []
  {
    if rows != [] {
      var init := rows[..|rows| - 1];
      assert rows == init + [rows[|rows| - 1]];
      SelectNone(init, t, same);
    }
  }

  lemma EmptyPrefix(e: seq<SilverRow>, xs: seq<SilverRow>)
    requires e == []
    ensures e + xs == xs
  {
  }

  /** Selecting keeps the (ticker, date) order. */
  lemma {:induction false} SelectSorted(rows: seq<SilverRow>, t: Ticker, same: bool)
    requires StrictlySorted(rows)
    ensures StrictlySorted(Select(rows, t, same))
  {
    if rows != [] {
      var init, last := rows[..|rows| - 1], rows[|rows| - 1];
      assert rows == init + [last];
      SelectSorted(init, t, same);
      SortedBeforeLast(init, last);
      var prefix := Select(init, t, same);
      assert forall i :: 0 <= i < |prefix| ==> prefix[i] in init;
    }
  }

  /** In a sorted frame every earlier row's key is below the last row's. */
  lemma SortedBeforeLast(init: seq<SilverRow>, last: SilverRow)
    requires StrictlySorted(init + [last])
    ensures forall r | r in init :: KeyLt(r, last)
  {
    var rows := init + [last];
    forall r | r in init
      ensures KeyLt(r, last)
    {
      var m :| 0 <= m < |init| && init[m] == r;
      assert rows[m] == r && rows[|init|] == last;
    }
  }

  /** The rows of ticker `t` among the rows that are not the benchmark's. */
  lemma {:induction false} SelectOfKept(rows: seq<SilverRow>, b: Ticker, t: Ticker)
    ensures Select(Select(rows, b, false), t, true) == if t == b then [] else Select(rows, t, true)
  {
    if rows != [] {
      var init, last := rows[..|rows| - 1], rows[|rows| - 1];
      assert rows == init + [last];
      SelectOfKept(init, b, t);
      if last.row.ticker != b {
        SelectAppend(Select(init, b, false), [last], t, true);
        assert [last][..0] == [];
      }
    }
  }

  // ---------------------------------------------------------------------------
  // groupby on the ordered frame

  /** After the first run of a sorted frame, every ticker is greater than the first one. */
  lemma RunTail(rows: seq<SilverRow>)
    requires rows != [] && StrictlySorted(rows)
    ensures forall m :: RunLength(rows) <= m < |rows| ==> TickerLt(rows[0].row.ticker, rows[m].row.ticker)
  {
    var n := RunLength(rows);
    forall m | n <= m < |rows|
      ensures TickerLt(rows[0].row.ticker, rows[m].row.ticker)
    {
      if m > n && rows[m].row.ticker == rows[0].row.ticker {
        assert KeyLt(rows[0], rows[n]) && KeyLt(rows[n], rows[m]);
        TickerLtAsymmetric(rows[0].row.ticker, rows[n].row.ticker);
        assert false;
      }
    }
  }

  lemma SuffixSorted(rows: seq<SilverRow>, n: nat)
    requires n <= |rows| && StrictlySorted(rows)
    ensures StrictlySorted(rows[n..])
  {
    forall i, j | 0 <= i < j < |rows[n..]|
      ensures KeyLt(rows[n..][i], rows[n..][j])
    {
      assert rows[n..][i] == rows[n + i] && rows[n..][j] == rows[n + j];
    }
  }

  lemma GroupsUnfold(rows: seq<SilverRow>)
    requires rows != []
    ensures Groups(rows) == [rows[..RunLength(rows)]] + Groups(rows[RunLength(rows)..])
  {
  }

  lemma GroupsTail(rows: seq<SilverRow>, k: nat)
    requires rows != [] && 0 < k < |Groups(rows)|
    ensures k - 1 < |Groups(rows[RunLength(rows)..])|
    ensures Groups(rows)[k] == Groups(rows[RunLength(rows)..])[k - 1]
  {
    GroupsUnfold(rows);
  }

  /** The first row of every group is a row of the frame. */
  lemma GroupHeadsInFrame(rows: seq<SilverRow>)
    ensures forall k :: 0 <= k < |Groups(rows)| ==> Groups(rows)[k][0] in rows
  {
    var gs := Groups(rows);
    GroupsCover(rows);
    forall k | 0 <= k < |gs|
      ensures gs[k][0] in rows
    {
      ConcatMember(gs, k, gs[k][0]);
    }
  }

  /** The rows after the first run of a sorted frame all have a greater ticker. */
  lemma FirstRunSmallest(rows: seq<SilverRow>)
    requires rows != [] && StrictlySorted(rows)
    ensures forall r | r in rows[RunLength(rows)..] :: TickerLt(rows[0].row.ticker, r.row.ticker)
  {
    var n := RunLength(rows);
    RunTail(rows);
    forall r | r in rows[n..]
      ensures TickerLt(rows[0].row.ticker, r.row.ticker)
    {
      var m :| 0 <= m < |rows[n..]| && rows[n..][m] == r;
      assert rows[n + m] == r;
    }
  }

  /**
   * Tickers in increasing order, one run each: what `ORDER BY ticker, date`
   * gives `groupby`, stated run by run.
   */
  predicate RunsAscending(rows: seq<SilverRow>)
    decreases |rows|
  {
    rows != [] ==>
      && (forall r | r in rows[RunLength(rows)..] :: TickerLt(rows[0].row.ticker, r.row.ticker))
      && RunsAscending(rows[RunLength(rows)..])
  }

  lemma {:induction false} SortedRunsAscending(rows: seq<SilverRow>)
    requires StrictlySorted(rows)
    ensures RunsAscending(rows)
    decreases |rows|
  {
    if rows != [] {
      FirstRunSmallest(rows);
      SuffixSorted(rows, RunLength(rows));
      SortedRunsAscending(rows[RunLength(rows)..]);
    }
  }

  /** A later group's ticker is greater than the first row's when every later row's is. */
  lemma LaterGroupTicker(rows: seq<SilverRow>, k: nat)
    requires rows != [] && 0 < k < |Groups(rows)|
    requires forall r | r in rows[RunLength(rows)..] :: TickerLt(rows[0].row.ticker, r.row.ticker)
    ensures TickerLt(rows[0].row.ticker, Groups(rows)[k][0].row.ticker)
  {
    var tail := rows[RunLength(rows)..];
    GroupsTail(rows, k);
    GroupHeadsInFrame(tail);
  }

  /** Group k's ticker is less than group l's for k < l. */
  lemma {:induction false} GroupTickerLt(rows: seq<SilverRow>, k: nat, l: nat)
    requires RunsAscending(rows)
    requires k < l < |Groups(rows)|
    ensures TickerLt(Groups(rows)[k][0].row.ticker, Groups(rows)[l][0].row.ticker)
    decreases |rows|
  {
    var gs := Groups(rows);
    LaterGroupTicker(rows, l);
    if k == 0 {
      GroupsUnfold(rows);
    } else {
      GroupsTail(rows, k);
      GroupsTail(rows, l);
      GroupTickerLt(rows[RunLength(rows)..], k - 1, l - 1);
    }
  }

  /** On a sorted frame the groups' tickers strictly increase. */
  lemma GroupsIncreasing(rows: seq<SilverRow>)
    requires StrictlySorted(rows)
    ensures var gs := Groups(rows);
      forall k, l :: 0 <= k < l < |gs| ==> TickerLt(gs[k][0].row.ticker, gs[l][0].row.ticker)
  {
    SortedRunsAscending(rows);
    forall k, l | 0 <= k < l < |Groups(rows)|
      ensures TickerLt(Groups(rows)[k][0].row.ticker, Groups(rows)[l][0].row.ticker)
    {
      GroupTickerLt(rows, k, l);
    }
  }

  /** Non-empty groups, each of a single ticker. */
  predicate UniformGroups(gs: seq<seq<SilverRow>>)
  {
    forall k :: 0 <= k < |gs| ==>
      gs[k] != [] && forall i :: 0 <= i < |gs[k]| ==> gs[k][i].row.ticker == gs[k][0].row.ticker
  }

  /** No two groups share a ticker. */
  predicate DistinctTickers(gs: seq<seq<SilverRow>>)
  {
    forall k, l :: 0 <= k < l < |gs| && gs[k] != [] && gs[l] != [] ==> gs[k][0].row.ticker != gs[l][0].row.ticker
  }

  /** A row of a concatenation is a row of one of its frames. */
  lemma {:induction false} ConcatMemberOf(gs: seq<seq<SilverRow>>, x: SilverRow) returns (k: nat)
    requires x in Concat(gs)
    ensures k < |gs| && x in gs[k]
    decreases |gs|
  {
    var init, last := gs[..|gs| - 1], gs[|gs| - 1];
    if x in last {
      k := |gs| - 1;
    } else {
      k := ConcatMemberOf(init, x);
      assert gs[k] == init[k];
    }
  }

  /**
   * Single-ticker groups with distinct tickers: each group is exactly the
   * rows of its ticker in the concatenation, in order.
   */
  lemma {:induction false} SeparatedGroupIsSelect(gs: seq<seq<SilverRow>>, k: nat)
    requires UniformGroups(gs) && DistinctTickers(gs)
    requires k < |gs|
    ensures gs[k] == Select(Concat(gs), gs[k][0].row.ticker, true)
    decreases |gs|
  {
    var init, last := gs[..|gs| - 1], gs[|gs| - 1];
    var t := gs[k][0].row.ticker;
    var e: seq<SilverRow> := [];
    assert Concat(gs) == Concat(init) + last;
    SelectAppend(Concat(init), last, t, true);
    if k == |gs| - 1 {
      assert Select(last, t, true) == last by {
        SelectAll(last, t, true);
      }
      assert Select(Concat(init), t, true) == e by {
        forall r: SilverRow | r in Concat(init)
          ensures r.row.ticker != t
        {
          var j := ConcatMemberOf(init, r);
          var i :| 0 <= i < |init[j]| && init[j][i] == r;
          assert gs[j] == init[j];
        }
        SelectNone(Concat(init), t, true);
      }
      EmptyPrefix(e, last);
    } else {
      assert UniformGroups(init) && DistinctTickers(init) by {
        assert forall j :: 0 <= j < |init| ==> init[j] == gs[j];
      }
      assert init[k] == gs[k];
      SeparatedGroupIsSelect(init, k);
      assert Select(last, t, true) == e by {
        SelectNone(last, t, true);
      }
      assert gs[k] + e == gs[k];
    }
  }

  lemma GroupsSelect(rows: seq<SilverRow>)
    requires StrictlySorted(rows)
    ensures var gs := Groups(rows);
      forall k :: 0 <= k < |gs| ==> gs[k] == Select(rows, gs[k][0].row.ticker, true)
  {
    var gs := Groups(rows);
    GroupsIncreasing(rows);
    GroupsCover(rows);
    assert DistinctTickers(gs) by {
      forall k, l | 0 <= k < l < |gs|
        ensures gs[k][0].row.ticker != gs[l][0].row.ticker
      {
        TickerLtDistinct(gs[k][0].row.ticker, gs[l][0].row.ticker);
      }
    }
    forall k | 0 <= k < |gs|
      ensures gs[k] == Select(rows, gs[k][0].row.ticker, true)
    {
      SeparatedGroupIsSelect(gs, k);
    }
  }

  /**
   * On a frame sorted by (ticker, date), the runs are pandas' groups: their
   * tickers strictly increase, and each run holds every row of its ticker,
   * in frame order.
   */
  lemma GroupsAreTickerGroups(rows: seq<SilverRow>)
    requires StrictlySorted(rows)
    ensures var gs := Groups(rows);
      && (forall k, l :: 0 <= k < l < |gs| ==> TickerLt(gs[k][0].row.ticker, gs[l][0].row.ticker))
      && (forall k :: 0 <= k < |gs| ==> gs[k] == Select(rows, gs[k][0].row.ticker, true))
  {
    GroupsIncreasing(rows);
    GroupsSelect(rows);
  }

  // ---------------------------------------------------------------------------
  // From groups to the concatenated tables

  lemma {:induction false} ConcatOfNonBenchmarkGroups(gs: seq<seq<SilverRow>>, cfg: Config)
    requires forall k :: 0 <= k < |gs| ==> gs[k] != []
    requires forall k, i :: 0 <= k < |gs| && 0 <= i < |gs[k]| ==> gs[k][i].row.ticker == gs[k][0].row.ticker
    ensures Concat(NonBenchmarkGroups(gs, cfg)) == Select(Concat(gs), cfg.benchmark, false)
    ensures NonBenchmarkGroups(gs, cfg) == [] <==> Select(Concat(gs), cfg.benchmark, false) == []
  {
    if gs != [] {
      var init, last := gs[..|gs| - 1], gs[|gs| - 1];
      ConcatOfNonBenchmarkGroups(init, cfg);
      SelectAppend(Concat(init), last, cfg.benchmark, false);
      if IsBenchmarkGroup(last, cfg) {
        SelectNone(last, cfg.benchmark, false);
      } else {
        SelectAll(last, cfg.benchmark, false);
        var kept := NonBenchmarkGroups(init, cfg);
        assert (kept + [last])[..|kept|] == kept;
      }
    }
  }

  lemma {:induction false} FramesLength(gs: seq<seq<SilverRow>>, table: seq<SpyEntry>, cfg: Config)
    requires AllNonZeroAdj(gs)
    ensures |Concat(FeatureFrames(gs, table, cfg))| == |Concat(gs)|
    ensures |Concat(LabelFrames(gs, table, cfg))| == |Concat(gs)|
    decreases |gs|
  {
    if gs != [] {
      var init := gs[..|gs| - 1];
      FramesLength(init, table, cfg);
      assert FeatureFrames(gs, table, cfg)[..|gs| - 1] == FeatureFrames(init, table, cfg);
      assert LabelFrames(gs, table, cfg)[..|gs| - 1] == LabelFrames(init, table, cfg);
    }
  }

  /** Row i of both concatenated tables comes from the same position t of the same group k. */
  lemma {:induction false} FramesAt(gs: seq<seq<SilverRow>>, table: seq<SpyEntry>, cfg: Config, i: nat)
    returns (k: nat, t: nat)
    requires AllNonZeroAdj(gs)
    requires i < |Concat(gs)|
    ensures |Concat(FeatureFrames(gs, table, cfg))| == |Concat(gs)|
    ensures |Concat(LabelFrames(gs, table, cfg))| == |Concat(gs)|
    ensures k < |gs| && t < |gs[k]|
    ensures Concat(gs)[i] == gs[k][t]
    ensures Concat(FeatureFrames(gs, table, cfg))[i] == ProcessGroup(gs[k], table, cfg).features[t]
    ensures Concat(LabelFrames(gs, table, cfg))[i] == ProcessGroup(gs[k], table, cfg).labels[t]
    decreases |gs|
  {
    FramesLength(gs, table, cfg);
    var init, last := gs[..|gs| - 1], gs[|gs| - 1];
    assert AllNonZeroAdj(init) && NonZeroAdj(last) by {
      assert forall g | g in init :: g in gs;
    }
    var fi, li := FeatureFrames(init, table, cfg), LabelFrames(init, table, cfg);
    var out := ProcessGroup(last, table, cfg);
    FramesLength(init, table, cfg);
    DropLast(gs);
    assert Concat(gs) == Concat(init) + last by {
      ConcatSnoc(init, last);
    }
    assert Concat(FeatureFrames(gs, table, cfg)) == Concat(fi) + out.features by {
      FramesSnoc(init, last, table, cfg);
      ConcatSnoc(fi, out.features);
    }
    assert Concat(LabelFrames(gs, table, cfg)) == Concat(li) + out.labels by {
      FramesSnoc(init, last, table, cfg);
      ConcatSnoc(li, out.labels);
    }
    var m := |Concat(init)|;
    if i < m {
      k, t := FramesAt(init, table, cfg, i);
      assert gs[k] == init[k];
      assert Concat(gs)[i] == Concat(init)[i];
      assert Concat(FeatureFrames(gs, table, cfg))[i] == Concat(fi)[i];
      assert Concat(LabelFrames(gs, table, cfg))[i] == Concat(li)[i];
    } else {
      k, t := |gs| - 1, i - m;
      assert gs[k] == last;
      assert Concat(gs)[i] == last[t];
      assert Concat(FeatureFrames(gs, table, cfg))[i] == out.features[t];
      assert Concat(LabelFrames(gs, table, cfg))[i] == out.labels[t];
    }
  }

  /** The non-benchmark groups of the frame and the frame's non-benchmark rows are the same rows. */
  lemma KeptGroups(rows: seq<SilverRow>, cfg: Config)
    ensures Concat(NonBenchmarkGroups(Groups(rows), cfg)) == Kept(rows, cfg)
    ensures NonBenchmarkGroups(Groups(rows), cfg) == [] <==> Kept(rows, cfg) == []
  {
    ConcatOfNonBenchmarkGroups(Groups(rows), cfg);
    GroupsCover(rows);
  }

  // ---------------------------------------------------------------------------
  // The two tables

  /** `pd.concat` raises exactly when every row belongs to the benchmark (or there are none). */
  lemma GoldFailsIffOnlyBenchmark(rows: seq<SilverRow>, cfg: Config)
    requires NonZeroAdj(rows)
    ensures BuildGold(rows, cfg).Failure? <==> Kept(rows, cfg) == []
  {
    KeptGroups(rows, cfg);
  }

  /**
   * Where row i of the two tables comes from: position t of one
   * non-benchmark group g, whose row there is the i-th non-benchmark row of
   * the frame.
   */
  lemma GoldRowSource(rows: seq<SilverRow>, cfg: Config, i: nat) returns (g: seq<SilverRow>, t: nat)
    requires NonZeroAdj(rows)
    requires i < |Kept(rows, cfg)|
    ensures BuildGold(rows, cfg).Success?
    ensures var tables := BuildGold(rows, cfg).value;
      |tables.features| == |Kept(rows, cfg)| && |tables.labels| == |Kept(rows, cfg)|
    ensures g in Groups(rows) && !IsBenchmarkGroup(g, cfg)
    ensures NonZeroAdj(g) && t < |g| && g[t] == Kept(rows, cfg)[i]
    ensures var tables, table := BuildGold(rows, cfg).value, BenchmarkTable(rows, cfg);
      && tables.features[i] == ProcessGroup(g, table, cfg).features[t]
      && tables.labels[i] == ProcessGroup(g, table, cfg).labels[t]
  {
    GoldFailsIffOnlyBenchmark(rows, cfg);
    var table := BenchmarkTable(rows, cfg);
    GroupsNonZero(rows);
    var gs := NonBenchmarkGroups(Groups(rows), cfg);
    KeptGroups(rows, cfg);
    var k;
    k, t := FramesAt(gs, table, cfg, i);
    g := gs[k];
    assert g in gs;
  }

  /**
   * Row alignment: both tables have one row per non-benchmark input row, in
   * input order; feature row i carries input row i's date, prices and
   * volume, label row i its ticker and date. Nothing is dropped, whatever
   * history or benchmark overlap a row has.
   */
  lemma GoldRowAlignment(rows: seq<SilverRow>, cfg: Config)
    requires NonZeroAdj(rows)
    requires Kept(rows, cfg) != []
    ensures BuildGold(rows, cfg).Success?
    ensures var tables, kept := BuildGold(rows, cfg).value, Kept(rows, cfg);
      && |tables.features| == |kept|
      && |tables.labels| == |kept|
      && forall i :: 0 <= i < |kept| ==>
        FeatureMirrors(tables.features[i], kept[i]) && LabelKeyed(tables.labels[i], kept[i])
  {
    GoldFailsIffOnlyBenchmark(rows, cfg);
    var tables, kept := BuildGold(rows, cfg).value, Kept(rows, cfg);
    var table := BenchmarkTable(rows, cfg);
    GroupsNonZero(rows);
    KeptGroups(rows, cfg);
    FramesLength(NonBenchmarkGroups(Groups(rows), cfg), table, cfg);
    forall i | 0 <= i < |kept|
      ensures FeatureMirrors(tables.features[i], kept[i]) && LabelKeyed(tables.labels[i], kept[i])
    {
      var g, t := GoldRowSource(rows, cfg, i);
      ProcessGroupRows(g, table, cfg, t);
    }
  }

  /** The benchmark ticker never appears in the labels table. */
  lemma GoldExcludesBenchmark(rows: seq<SilverRow>, cfg: Config)
    requires NonZeroAdj(rows)
    requires Kept(rows, cfg) != []
    ensures BuildGold(rows, cfg).Success?
    ensures forall l | l in BuildGold(rows, cfg).value.labels :: l.ticker != cfg.benchmark
  {
    GoldRowAlignment(rows, cfg);
    var labels, kept := BuildGold(rows, cfg).value.labels, Kept(rows, cfg);
    forall l | l in labels
      ensures l.ticker != cfg.benchmark
    {
      var i :| 0 <= i < |labels| && labels[i] == l;
      assert kept[i] in kept;
    }
  }

  /** The number of label rows of ticker `t`. */
  function TickerCount(labels: seq<LabelRow>, t: Ticker): nat
  {
    if labels == [] then 0
    else TickerCount(labels[..|labels| - 1], t) + (if labels[|labels| - 1].ticker == t then 1 else 0)
  }

  lemma {:induction false} TickerCountOfAligned(labels: seq<LabelRow>, rows: seq<SilverRow>, t: Ticker)
    requires |labels| == |rows|
    requires forall i :: 0 <= i < |rows| ==> labels[i].ticker == rows[i].row.ticker
    ensures TickerCount(labels, t) == |Select(rows, t, true)|
  {
    if rows != [] {
      TickerCountOfAligned(labels[..|labels| - 1], rows[..|rows| - 1], t);
    }
  }

  /**
   * Each non-benchmark ticker contributes exactly as many label rows as it
   * has input rows; the benchmark contributes none.
   */
  lemma GoldTickerCounts(rows: seq<SilverRow>, cfg: Config, t: Ticker)
    requires NonZeroAdj(rows)
    requires Kept(rows, cfg) != []
    ensures BuildGold(rows, cfg).Success?
    ensures TickerCount(BuildGold(rows, cfg).value.labels, t)
      == if t == cfg.benchmark then 0 else |Select(rows, t, true)|
  {
    GoldRowAlignment(rows, cfg);
    TickerCountOfAligned(BuildGold(rows, cfg).value.labels, Kept(rows, cfg), t);
    SelectOfKept(rows, cfg.benchmark, t);
  }

  predicate LabelKeyLt(x: LabelRow, y: LabelRow)
  {
    TickerLt(x.ticker, y.ticker) || (x.ticker == y.ticker && x.date < y.date)
  }

  /** On the ordered fetch, the label rows are in strictly increasing (ticker, date) order. */
  lemma GoldOrdered(rows: seq<SilverRow>, cfg: Config)
    requires NonZeroAdj(rows)
    requires StrictlySorted(rows)
    requires Kept(rows, cfg) != []
    ensures BuildGold(rows, cfg).Success?
    ensures var labels := BuildGold(rows, cfg).value.labels;
      forall i, j :: 0 <= i < j < |labels| ==> LabelKeyLt(labels[i], labels[j])
  {
    GoldRowAlignment(rows, cfg);
    SelectSorted(rows, cfg.benchmark, false);
  }

  // ---------------------------------------------------------------------------
  // Where each output row comes from

  /**
   * Row i of both tables is row t of the per-ticker computation over the
   * whole date-ordered series of one non-benchmark ticker, so the positional
   * facts of `ProcessGroupRows` (momentum from position t - 252, forward
   * return to t + H, censoring at both ends) hold of it.
   */
  lemma GoldRowOrigin(rows: seq<SilverRow>, cfg: Config, i: nat) returns (tk: Ticker, t: nat)
    requires NonZeroAdj(rows)
    requires StrictlySorted(rows)
    requires i < |Kept(rows, cfg)|
    ensures BuildGold(rows, cfg).Success?
    ensures tk != cfg.benchmark
    ensures NonZeroAdj(Select(rows, tk, true)) && t < |Select(rows, tk, true)|
    ensures Select(rows, tk, true)[t] == Kept(rows, cfg)[i]
    ensures var tables, table, series := BuildGold(rows, cfg).value, BenchmarkTable(rows, cfg), Select(rows, tk, true);
      && |tables.features| == |Kept(rows, cfg)| && |tables.labels| == |Kept(rows, cfg)|
      && tables.features[i] == ProcessGroup(series, table, cfg).features[t]
      && tables.labels[i] == ProcessGroup(series, table, cfg).labels[t]
  {
    var g;
    g, t := GoldRowSource(rows, cfg, i);
    var groups := Groups(rows);
    var k :| 0 <= k < |groups| && groups[k] == g;
    GroupsAreTickerGroups(rows);
    tk := g[0].row.ticker;
    assert g == Select(rows, tk, true);
  }

  // ---------------------------------------------------------------------------
  // The benchmark join

  lemma BenchmarkDatesUnique(rows: seq<SilverRow>, cfg: Config)
    requires NonZeroAdj(rows)
    requires StrictlySorted(rows)
    ensures UniqueDates(BenchmarkTable(rows, cfg))
  {
    var spy := BenchmarkRows(rows, cfg);
    var table := BenchmarkTable(rows, cfg);
    SelectSorted(rows, cfg.benchmark, true);
    forall i, j | 0 <= i < j < |table|
      ensures table[i].date != table[j].date
    {
      BenchmarkTableAt(rows, cfg, i);
      BenchmarkTableAt(rows, cfg, j);
      assert spy[i] in spy && spy[j] in spy;
      assert KeyLt(spy[i], spy[j]);
      TickerLtIrreflexive(cfg.benchmark);
    }
  }

  /**
   * The left join by date, where the benchmark has a row at d: a ticker's
   * `spy_fwd_ret` at d is the benchmark's forward return from that row,
   * missing for the benchmark's last H rows.
   */
  lemma SpyFwdRetAtBenchmarkDate(rows: seq<SilverRow>, cfg: Config, j: nat)
    requires NonZeroAdj(rows)
    requires StrictlySorted(rows)
    requires j < |BenchmarkRows(rows, cfg)|
    ensures var spy := BenchmarkRows(rows, cfg);
      SpyLookup(BenchmarkTable(rows, cfg), spy[j].row.date) ==
        if j + cfg.horizon < |spy|
        then Some(Growth(spy[j].row.adjClose, spy[j + cfg.horizon].row.adjClose))
        else None
  {
    BenchmarkDatesUnique(rows, cfg);
    BenchmarkTableAt(rows, cfg, j);
  }

  /** The left join by date, where the benchmark has no row at d: `spy_fwd_ret` is missing. */
  lemma SpyFwdRetOffBenchmarkDate(rows: seq<SilverRow>, cfg: Config, d: Date)
    requires NonZeroAdj(rows)
    requires forall s | s in BenchmarkRows(rows, cfg) :: s.row.date != d
    ensures SpyLookup(BenchmarkTable(rows, cfg), d) == None
  {
    var spy, table := BenchmarkRows(rows, cfg), BenchmarkTable(rows, cfg);
    forall j | 0 <= j < |table|
      ensures table[j].date != d
    {
      BenchmarkTableAt(rows, cfg, j);
      assert spy[j] in spy;
    }
  }

  /** Without benchmark rows the benchmark frame is empty and every row is kept. */
  lemma NoBenchmarkRows(rows: seq<SilverRow>, cfg: Config)
    requires NonZeroAdj(rows)
    requires forall r | r in rows :: r.row.ticker != cfg.benchmark
    ensures BenchmarkTable(rows, cfg) == []
    ensures Kept(rows, cfg) == rows
  {
    SelectAll(rows, cfg.benchmark, false);
    SelectNone(rows, cfg.benchmark, true);
  }

  /** Without benchmark rows label row i has no benchmark return, no excess and no hit. */
  lemma NoBenchmarkLabel(rows: seq<SilverRow>, cfg: Config, i: nat)
    requires NonZeroAdj(rows)
    requires forall r | r in rows :: r.row.ticker != cfg.benchmark
    requires i < |Kept(rows, cfg)|
    ensures BuildGold(rows, cfg).Success?
    ensures i < |BuildGold(rows, cfg).value.labels|
    ensures var l := BuildGold(rows, cfg).value.labels[i];
      l.spyFwdRet == None && l.excessReturn12m == None && l.hit2pct == 0
  {
    NoBenchmarkRows(rows, cfg);
    var g, t := GoldRowSource(rows, cfg, i);
    ProcessGroupRows(g, [], cfg, t);
  }

  /**
   * Without any benchmark row the stage still succeeds when another ticker is
   * present, and every label row has no benchmark return, no excess return
   * and a hit of 0.
   */
  lemma BenchmarkAbsent(rows: seq<SilverRow>, cfg: Config)
    requires NonZeroAdj(rows)
    requires rows != []
    requires forall r | r in rows :: r.row.ticker != cfg.benchmark
    ensures BuildGold(rows, cfg).Success?
    ensures forall l | l in BuildGold(rows, cfg).value.labels ::
      l.spyFwdRet == None && l.excessReturn12m == None && l.hit2pct == 0
  {
    NoBenchmarkRows(rows, cfg);
    GoldFailsIffOnlyBenchmark(rows, cfg);
    GoldRowAlignment(rows, cfg);
    var labels := BuildGold(rows, cfg).value.labels;
    forall i | 0 <= i < |labels|
      ensures labels[i].spyFwdRet == None && labels[i].excessReturn12m == None && labels[i].hit2pct == 0
    {
      NoBenchmarkLabel(rows, cfg, i);
    }
  }

  // ---------------------------------------------------------------------------
  // Censoring over a whole series

  /** The `excess_return_12m` column of a label frame. */
  function ExcessColumn(labels: seq<LabelRow>): (col: seq<Option<real>>)
    ensures |col| == |labels|
    ensures forall t :: 0 <= t < |labels| ==> col[t] == labels[t].excessReturn12m
  {
    seq(|labels|, i requires 0 <= i < |labels| => labels[i].excessReturn12m)
  }

  /** The `momentum_12m` column of a feature frame. */
  function MomentumColumn(features: seq<FeatureRow>): (col: seq<Option<real>>)
    ensures |col| == |features|
    ensures forall t :: 0 <= t < |features| ==> col[t] == features[t].momentum12m
  {
    seq(|features|, i requires 0 <= i < |features| => features[i].momentum12m)
  }

  /** Whether ticker `tk` trades on exactly the benchmark's dates. */
  predicate FullOverlap(rows: seq<SilverRow>, cfg: Config, tk: Ticker)
  {
    var series, spy := Select(rows, tk, true), BenchmarkRows(rows, cfg);
    |series| == |spy| && forall t :: 0 <= t < |series| ==> series[t].row.date == spy[t].row.date
  }

  /** One row of a fully overlapping ticker: excess return exactly when H more rows follow. */
  lemma FullOverlapRow(rows: seq<SilverRow>, cfg: Config, tk: Ticker, t: nat)
    requires NonZeroAdj(rows)
    requires StrictlySorted(rows)
    requires FullOverlap(rows, cfg, tk)
    requires t < |Select(rows, tk, true)|
    ensures NonZeroAdj(Select(rows, tk, true))
    ensures var series := Select(rows, tk, true);
      var l := ProcessGroup(series, BenchmarkTable(rows, cfg), cfg).labels[t];
      && (l.excessReturn12m.Some? <==> t + cfg.horizon < |series|)
      && (l.hit2pct == 1 ==> t + cfg.horizon < |series|)
  {
    var series := Select(rows, tk, true);
    ProcessGroupRows(series, BenchmarkTable(rows, cfg), cfg, t);
    SpyFwdRetAtBenchmarkDate(rows, cfg, t);
  }

  /** Momentum is defined on all but the first 252 rows of any ticker's series. */
  lemma MomentumColumnCount(g: seq<SilverRow>, table: seq<SpyEntry>, cfg: Config)
    requires NonZeroAdj(g)
    ensures CountDefined(MomentumColumn(ProcessGroup(g, table, cfg).features))
      == if |g| > MomentumWindow then |g| - MomentumWindow else 0
  {
    var momentum := MomentumColumn(ProcessGroup(g, table, cfg).features);
    forall t | 0 <= t < |g|
      ensures momentum[t].Some? <==> t >= MomentumWindow
    {
      ProcessGroupRows(g, table, cfg, t);
    }
    if |g| >= MomentumWindow {
      CountDefinedFrom(momentum, MomentumWindow);
    } else {
      CountDefinedNone(momentum);
    }
  }

  /** A fully overlapping ticker has an excess return on all but its last H rows. */
  lemma FullOverlapExcessCount(rows: seq<SilverRow>, cfg: Config, tk: Ticker)
    requires NonZeroAdj(rows)
    requires StrictlySorted(rows)
    requires FullOverlap(rows, cfg, tk)
    ensures NonZeroAdj(Select(rows, tk, true))
    ensures var series := Select(rows, tk, true);
      CountDefined(ExcessColumn(ProcessGroup(series, BenchmarkTable(rows, cfg), cfg).labels))
        == if |series| > cfg.horizon then |series| - cfg.horizon else 0
  {
    var series := Select(rows, tk, true);
    var excess := ExcessColumn(ProcessGroup(series, BenchmarkTable(rows, cfg), cfg).labels);
    var m := if |series| > cfg.horizon then |series| - cfg.horizon else 0;
    forall t | 0 <= t < |series|
      ensures excess[t].Some? <==> t < m
    {
      FullOverlapRow(rows, cfg, tk, t);
    }
    CountDefinedBefore(excess, m);
  }

  /**
   * A ticker whose dates are exactly the benchmark's: momentum is missing on
   * its first 252 rows and present after; the excess return, and so any
   * hit, exists exactly on all but its last H rows. With 500 rows and
   * H = 252 that leaves 248 rows with an excess return.
   */
  lemma FullOverlapCensoring(rows: seq<SilverRow>, cfg: Config, tk: Ticker)
    requires NonZeroAdj(rows)
    requires StrictlySorted(rows)
    requires FullOverlap(rows, cfg, tk)
    ensures NonZeroAdj(Select(rows, tk, true))
    ensures var series := Select(rows, tk, true);
      var out := ProcessGroup(series, BenchmarkTable(rows, cfg), cfg);
      && CountDefined(ExcessColumn(out.labels)) == (if |series| > cfg.horizon then |series| - cfg.horizon else 0)
      && CountDefined(MomentumColumn(out.features)) == (if |series| > MomentumWindow then |series| - MomentumWindow else 0)
  {
    FullOverlapExcessCount(rows, cfg, tk);
    MomentumColumnCount(Select(rows, tk, true), BenchmarkTable(rows, cfg), cfg);
  }
}
