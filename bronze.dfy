/**
 * Cleaning stage: raw.prices to bronze.prices (etl/bronze_transform.py).
 *
 * One SELECT keeps the rows whose volume and four quoted prices are positive
 * (the WHERE clause) and then keeps one row per (ticker, date) among the
 * survivors (QUALIFY ROW_NUMBER() OVER (PARTITION BY ticker, date) = 1).
 * The engine's choice among duplicates is arbitrary; `Clean` fixes it as the
 * first surviving row in input order, and `IsCleaning` states what every
 * admissible choice satisfies, so the lemmas below hold for any tie-break.
 */
module Bronze {

  /** A trading day, as a day number. */
  type Date = int

  type Ticker = string

  /** One price row, already typed as the CAST list gives it. */
  datatype Row = Row(
    date: Date,
    open: real,
    high: real,
    low: real,
    close: real,
    adjClose: real,
    volume: int,
    ticker: Ticker)

  /** The partition key of the QUALIFY window. */
  datatype Key = Key(ticker: Ticker, date: Date)

  function KeyOf(r: Row): Key
  {
    Key(r.ticker, r.date)
  }

  function KeysOf(rows: seq<Row>): set<Key>
  {
    set r | r in rows :: KeyOf(r)
  }

  predicate UniqueKeys(rows: seq<Row>)
  {
    forall i, j :: 0 <= i < j < |rows| ==> KeyOf(rows[i]) != KeyOf(rows[j])
  }

  /** The WHERE clause. `adjClose` is not checked. */
  predicate Passes(r: Row)
  {
    r.volume > 0 && r.close > 0.0 && r.open > 0.0 && r.high > 0.0 && r.low > 0.0
  }

  /** WHERE: the rows that pass, in input order. */
  function FilterValid(rows: seq<Row>): (kept: seq<Row>)
    ensures |kept| <= |rows|
    ensures forall x :: x in kept <==> x in rows && Passes(x)
  {
    if rows == [] then []
    else
      var init, last := rows[..|rows| - 1], rows[|rows| - 1];
      assert rows == init + [last];
      if Passes(last) then FilterValid(init) + [last] else FilterValid(init)
  }

  /** QUALIFY ROW_NUMBER() = 1, with the first row of each key in input order as row number 1. */
  function Dedup(rows: seq<Row>): (kept: seq<Row>)
    ensures |kept| <= |rows|
    ensures forall x :: x in kept ==> x in rows
    ensures KeysOf(kept) == KeysOf(rows)
    ensures UniqueKeys(kept)
  {
    if rows == [] then []
    else
      var init, last := rows[..|rows| - 1], rows[|rows| - 1];
      assert rows == init + [last];
      KeysSnoc(init, last);
      var prefix := Dedup(init);
      if KeyOf(last) in KeysOf(init) then prefix
      else
        KeysSnoc(prefix, last);
        prefix + [last]
  }

  /** Appending a row adds its key. */
  lemma KeysSnoc(rows: seq<Row>, x: Row)
    ensures KeysOf(rows + [x]) == KeysOf(rows) + {KeyOf(x)}
    ensures forall i :: 0 <= i < |rows| ==> KeyOf(rows[i]) in KeysOf(rows)
  {
  }

  /**
   * What the query guarantees whatever row the engine numbers first: every
   * output row is an input row that passes the filter, no two output rows
   * share a key, and every key with a passing row is present.
   */
  predicate IsCleaning(raw: seq<Row>, out: seq<Row>)
  {
    && (forall o | o in out :: o in raw && Passes(o))
    && UniqueKeys(out)
    && (forall r | r in raw && Passes(r) :: KeyOf(r) in KeysOf(out))
  }

  /** The cleaning query: filter first, then deduplicate the survivors. */
  function Clean(raw: seq<Row>): (bronze: seq<Row>)
    ensures IsCleaning(raw, bronze)
  {
    Dedup(FilterValid(raw))
  }

  /** The keys that have at least one passing row. */
  function PassingKeys(raw: seq<Row>): set<Key>
  {
    set r | r in raw && Passes(r) :: KeyOf(r)
  }

  /** The number of rows of `rows` with key `k`. */
  function CountKey(rows: seq<Row>, k: Key): nat
  {
    if rows == [] then 0
    else CountKey(rows[..|rows| - 1], k) + (if KeyOf(rows[|rows| - 1]) == k then 1 else 0)
  }

  /** Dropping the last row of a table with unique keys leaves unique keys without the last row's key. */
  lemma UniqueKeysInit(rows: seq<Row>)
    requires rows != [] && UniqueKeys(rows)
    ensures UniqueKeys(rows[..|rows| - 1])
    ensures KeyOf(rows[|rows| - 1]) !in KeysOf(rows[..|rows| - 1])
  {
    var init, last := rows[..|rows| - 1], rows[|rows| - 1];
    forall x | x in init
      ensures KeyOf(x) != KeyOf(last)
    {
      var i :| 0 <= i < |init| && init[i] == x;
      assert rows[i] == x;
    }
  }

  lemma {:induction false} KeysCount(rows: seq<Row>)
    ensures |KeysOf(rows)| <= |rows|
    ensures UniqueKeys(rows) ==> |KeysOf(rows)| == |rows|
  {
    if rows != [] {
      var init, last := rows[..|rows| - 1], rows[|rows| - 1];
      KeysCount(init);
      assert KeysOf(rows) == KeysOf(init) + {KeyOf(last)} by {
        assert rows == init + [last];
      }
      if UniqueKeys(rows) {
        UniqueKeysInit(rows);
      }
    }
  }

  lemma {:induction false} CountKeyBounds(rows: seq<Row>, k: Key)
    ensures CountKey(rows, k) > 0 <==> k in KeysOf(rows)
    ensures UniqueKeys(rows) ==> CountKey(rows, k) <= 1
  {
    if rows != [] {
      var init, last := rows[..|rows| - 1], rows[|rows| - 1];
      assert rows == init + [last];
      CountKeyBounds(init, k);
      assert KeysOf(rows) == KeysOf(init) + {KeyOf(last)};
    }
  }

  /** Cleaning never adds rows, whatever the tie-break. */
  lemma CleaningShrinks(raw: seq<Row>, out: seq<Row>)
    requires IsCleaning(raw, out)
    ensures |out| <= |raw|
  {
    KeysCount(out);
    KeysCount(raw);
    assert KeysOf(out) <= KeysOf(raw);
    SubsetCardinality(KeysOf(out), KeysOf(raw));
  }

  lemma {:induction false} SubsetCardinality<T>(a: set<T>, b: set<T>)
    requires a <= b
    ensures |a| <= |b|
    decreases |a|
  {
    if a != {} {
      var x :| x in a;
      SubsetCardinality(a - {x}, b - {x});
    }
  }

  /** Every key with a passing row is in the output exactly once; every other key not at all. */
  lemma ExactlyOncePerKey(raw: seq<Row>, out: seq<Row>, k: Key)
    requires IsCleaning(raw, out)
    ensures CountKey(out, k) == if k in PassingKeys(raw) then 1 else 0
  {
    CountKeyBounds(out, k);
    if k in PassingKeys(raw) {
      var r :| r in raw && Passes(r) && KeyOf(r) == k;
      assert k in KeysOf(out);
    }
  }

  /**
   * A failing row can never displace a passing row with the same key: the key
   * is kept once, and the row kept is not the failing one.
   */
  lemma FilterBeforeDedup(raw: seq<Row>, out: seq<Row>, good: Row, bad: Row)
    requires IsCleaning(raw, out)
    requires good in raw && Passes(good)
    requires bad in raw && !Passes(bad) && KeyOf(bad) == KeyOf(good)
    ensures CountKey(out, KeyOf(bad)) == 1
    ensures bad !in out
    ensures forall o | o in out && KeyOf(o) == KeyOf(good) :: Passes(o)
  {
    ExactlyOncePerKey(raw, out, KeyOf(bad));
  }

  /** A failing row listed before a passing row with the same key cleans to the passing row alone. */
  lemma InvalidDuplicateScenario(good: Row, bad: Row)
    requires Passes(good) && !Passes(bad) && KeyOf(bad) == KeyOf(good)
    ensures Clean([bad, good]) == [good]
  {
    assert [bad, good][..1] == [bad];
    assert [bad][..0] == [];
    assert FilterValid([bad]) == [];
    assert FilterValid([bad, good]) == [good];
    assert [good][..0] == [];
    assert Dedup([good]) == [good];
  }

  /** The filter keeps input order: filtering a concatenation filters each part in turn. */
  lemma {:induction false} FilterValidAppend(a: seq<Row>, b: seq<Row>)
    ensures FilterValid(a + b) == FilterValid(a) + FilterValid(b)
    decreases |b|
  {
    if b == [] {
      assert a + b == a;
    } else {
      var init, last := b[..|b| - 1], b[|b| - 1];
      assert (a + b)[..|a + b| - 1] == a + init;
      assert (a + b)[|a + b| - 1] == last;
      FilterValidAppend(a, init);
    }
  }

  lemma {:induction false} FilterValidOfValid(rows: seq<Row>)
    requires forall r | r in rows :: Passes(r)
    ensures FilterValid(rows) == rows
  {
    if rows != [] {
      var init := rows[..|rows| - 1];
      assert rows == init + [rows[|rows| - 1]];
      FilterValidOfValid(init);
    }
  }

  lemma {:induction false} DedupOfUnique(rows: seq<Row>)
    requires UniqueKeys(rows)
    ensures Dedup(rows) == rows
  {
    if rows != [] {
      var init, last := rows[..|rows| - 1], rows[|rows| - 1];
      assert rows == init + [last];
      DedupOfUnique(init);
    }
  }

  /** Re-running the cleaning query on its own output returns the same rows. */
  lemma CleanIdempotent(raw: seq<Row>)
    ensures Clean(Clean(raw)) == Clean(raw)
  {
    var once := Clean(raw);
    FilterValidOfValid(once);
    DedupOfUnique(once);
  }

  /**
   * Idempotence for any tie-break: cleaning a cleaned table, with any choice
   * among duplicates, keeps exactly the same rows.
   */
  lemma CleaningStable(raw: seq<Row>, out: seq<Row>, again: seq<Row>)
    requires IsCleaning(raw, out)
    requires IsCleaning(out, again)
    ensures forall x :: x in again <==> x in out
    ensures |again| == |out|
  {
    forall x | x in out
      ensures x in again
    {
      assert KeyOf(x) in KeysOf(again);
      var y :| y in again && KeyOf(y) == KeyOf(x);
      var i :| 0 <= i < |out| && out[i] == x;
      var j :| 0 <= j < |out| && out[j] == y;
    }
    KeysCount(out);
    KeysCount(again);
    assert KeysOf(again) == KeysOf(out);
  }
}
