/** The series-preparation pipeline of the index page: the table fetched for the
    four tickers is narrowed to one field, resampled for intraday tags, stripped
    of incomplete rows, extended with the lira-denominated gold and bitcoin
    series, normalised to its first row and emitted under display names.
    Timestamps are epoch seconds; prices are exact reals. */
module SeriesPrep {
  import opened Wrappers

  // ---------------------------------------------------------------------------
  // Data model
  // ---------------------------------------------------------------------------

  /** The four tickers requested from the market-data service. */
  datatype Ticker = UsdTry | Xu100 | GoldFutures | BtcUsd {
    /** The provider's symbol for the ticker. */
    function Symbol(): string {
      match this
      case UsdTry => "TRY=X"
      case Xu100 => "XU100.IS"
      case GoldFutures => "GC=F"
      case BtcUsd => "BTC-USD"
    }
  }

  /** A column of the downloaded table, addressed by (field, symbol), e.g. ("Close", "GC=F"). */
  datatype Key = Key(field: string, symbol: string)

  /** One downloaded row: its timestamp and the cells that hold a number
      (a key that is absent is a missing value). */
  datatype RawRow = RawRow(ts: int, cells: map<Key, real>)

  /** The downloaded table: its column index and its rows. */
  datatype RawTable = RawTable(columns: set<Key>, rows: seq<RawRow>)

  /** A row narrowed to one field of the four tickers; any cell may be missing. */
  datatype Row = Row(ts: int, usdTry: Option<real>, xu100: Option<real>,
                     goldFutures: Option<real>, btcUsd: Option<real>)
  {
    function Get(t: Ticker): Option<real> {
      match t
      case UsdTry => usdTry
      case Xu100 => xu100
      case GoldFutures => goldFutures
      case BtcUsd => btcUsd
    }
  }

  /** A row with all four cells present. */
  datatype Quote = Quote(ts: int, usdTry: real, xu100: real, goldFutures: real, btcUsd: real)

  /** A row of the final column set: the lira rate, the BIST index, and gold and
      bitcoin priced in lira. */
  datatype Level = Level(ts: int, usd: real, bist: real, gold: real, btc: real)

  /** The failures the pipeline raises. NoData carries the requested range;
      MissingColumn is the lookup error of selecting an absent column. */
  datatype Error = NoData(from: string, to: string) | MissingColumn(key: Key)

  /** What the pipeline emits: the rendered timestamps and the series by display name. */
  datatype Page = Page(ditis: seq<string>, series: map<string, seq<real>>)

  /** The text of the NoData error, which the error page shows. */
  function NoDataMessage(from: string, to: string): (m: string)
    ensures |m| == 29 + |from| + |to|
    ensures m[23..23 + |from|] == from
    ensures m[|m| - 1 - |to|..|m| - 1] == to
  {
    "No data found between [" + from + "] - [" + to + "]"
  }

  // ---------------------------------------------------------------------------
  // Sequences of timestamps
  // ---------------------------------------------------------------------------

  predicate StrictlyIncreasing(s: seq<int>) {
    forall i, j :: 0 <= i < j < |s| ==> s[i] < s[j]
  }

  function Times(rows: seq<Row>): (ts: seq<int>)
    ensures |ts| == |rows|
    ensures forall i :: 0 <= i < |rows| ==> ts[i] == rows[i].ts
  {
    seq(|rows|, i requires 0 <= i < |rows| => rows[i].ts)
  }

  /** The timestamps of complete rows, read through their rows. */
  function QuoteTimes(qs: seq<Quote>): (ts: seq<int>)
    ensures |ts| == |qs|
    ensures forall i :: 0 <= i < |qs| ==> ts[i] == qs[i].ts
  {
    Times(seq(|qs|, i requires 0 <= i < |qs| => Widen(qs[i])))
  }

  /** The tail of a strictly increasing sequence holds the elements other than its head. */
  lemma TailElements(a: seq<int>)
    requires a != [] && StrictlyIncreasing(a)
    ensures StrictlyIncreasing(a[1..])
    ensures forall x :: x in a[1..] <==> x in a && x != a[0]
    ensures forall x :: x in a ==> a[0] <= x
  {
    forall x | x in a
      ensures a[0] <= x && (x != a[0] ==> x in a[1..])
    {
      var i :| 0 <= i < |a| && a[i] == x;
      if i > 0 {
        assert a[1..][i - 1] == x;
      }
    }
    forall x | x in a[1..]
      ensures x in a && x != a[0]
    {
      var i :| 0 <= i < |a[1..]| && a[1..][i] == x;
      assert a[i + 1] == x;
    }
  }

  /** Putting a value below every element in front keeps a sequence strictly increasing. */
  lemma ConsIncreasing(x: int, s: seq<int>)
    requires StrictlyIncreasing(s)
    requires forall i :: 0 <= i < |s| ==> x < s[i]
    ensures StrictlyIncreasing([x] + s)
  {
    var c := [x] + s;
    forall i, j | 0 <= i < j < |c|
      ensures c[i] < c[j]
    {
      assert c[j] == s[j - 1];
      if i > 0 {
        assert c[i] == s[i - 1];
      }
    }
  }

  /** Two strictly increasing sequences with the same elements are equal. */
  lemma {:induction false} SortedUnique(a: seq<int>, b: seq<int>)
    requires StrictlyIncreasing(a) && StrictlyIncreasing(b)
    requires forall x :: x in a <==> x in b
    ensures a == b
  {
    assert a != [] ==> a[0] in a && a[0] in b;
    assert b != [] ==> b[0] in b && b[0] in a;
    if a != [] {
      TailElements(a);
      TailElements(b);
      assert a[0] in b && b[0] in a;
      SortedUnique(a[1..], b[1..]);
      assert a == [a[0]] + a[1..];
      assert b == [b[0]] + b[1..];
    }
  }

  // ---------------------------------------------------------------------------
  // Column select (helper.py:37-44)
  // ---------------------------------------------------------------------------

  function Cell(r: RawRow, k: Key): Option<real> {
    if k in r.cells then Some(r.cells[k]) else None
  }

  function SelectRow(r: RawRow, field: string): (row: Row)
    ensures row.ts == r.ts
    ensures forall t :: row.Get(t) == Cell(r, Key(field, t.Symbol()))
  {
    Row(r.ts, Cell(r, Key(field, UsdTry.Symbol())), Cell(r, Key(field, Xu100.Symbol())),
        Cell(r, Key(field, GoldFutures.Symbol())), Cell(r, Key(field, BtcUsd.Symbol())))
  }

  /** The first of the four requested columns that the table lacks, if any. */
  function FirstMissing(t: RawTable, field: string): (k: Option<Key>)
    ensures k.None? <==> forall s: Ticker :: Key(field, s.Symbol()) in t.columns
    ensures k.Some? ==> k.value !in t.columns && k.value.field == field
  {
    if Key(field, UsdTry.Symbol()) !in t.columns then Some(Key(field, UsdTry.Symbol()))
    else if Key(field, Xu100.Symbol()) !in t.columns then Some(Key(field, Xu100.Symbol()))
    else if Key(field, GoldFutures.Symbol()) !in t.columns then Some(Key(field, GoldFutures.Symbol()))
    else if Key(field, BtcUsd.Symbol()) !in t.columns then Some(Key(field, BtcUsd.Symbol()))
    else None
  }

  /** Selecting the four (field, symbol) columns: a lookup error when one is
      absent from the column index, otherwise the rows narrowed to those cells. */
  function SelectColumns(t: RawTable, field: string): (r: Result<seq<Row>, Error>)
    ensures r.Failure? <==> exists s: Ticker :: Key(field, s.Symbol()) !in t.columns
    ensures r.Failure? ==> r.error.MissingColumn? && r.error.key !in t.columns
    ensures r.Success? ==> |r.value| == |t.rows|
    ensures r.Success? ==> forall i, s :: 0 <= i < |t.rows| ==>
      r.value[i].ts == t.rows[i].ts && r.value[i].Get(s) == Cell(t.rows[i], Key(field, s.Symbol()))
  {
    match FirstMissing(t, field)
    case Some(k) => Failure(MissingColumn(k))
    case None => Success(seq(|t.rows|, i requires 0 <= i < |t.rows| => SelectRow(t.rows[i], field)))
  }

  // ---------------------------------------------------------------------------
  // Resample (helper.py:46-51)
  // ---------------------------------------------------------------------------

  /** The bucket width in seconds for the interval tags that are resampled;
      every other tag is left alone. */
  function BucketSeconds(interval: string): (b: Option<int>)
    ensures b.Some? <==> interval == "1h" || interval == "15T"
    ensures interval == "1h" ==> b == Some(3600)
    ensures interval == "15T" ==> b == Some(900)
  {
    if interval == "1h" then Some(3600)
    else if interval == "15T" then Some(900)
    else None
  }

  lemma MulBound(n: int, b: int)
    requires b > 0
    ensures n >= 1 ==> n * b >= b
    ensures n <= -1 ==> n * b <= -b
  {
  }

  /** A multiple of b is divisible by b, with quotient the multiplier. */
  lemma MultipleOf(q: int, b: int)
    requires b > 0
    ensures (q * b) % b == 0
    ensures (q * b) / b == q
  {
    var r := (q * b) % b;
    var d := (q * b) / b;
    assert q * b == d * b + r;
    assert (q - d) * b == r;
    MulBound(q - d, b);
  }

  /** t is a multiple of b. */
  predicate OnGrid(t: int, b: int)
    requires b > 0
  {
    t % b == 0
  }

  /** A timestamp floored to a multiple of b seconds: the greatest multiple of b
      not above it. */
  function FloorTo(t: int, b: int): (f: int)
    requires b > 0
    ensures OnGrid(f, b)
    ensures f <= t < f + b
  {
    MultipleOf(t / b, b);
    (t / b) * b
  }

  /** Flooring a multiple of b leaves it unchanged. */
  lemma FloorOfMultiple(t: int, b: int)
    requires b > 0 && OnGrid(t, b)
    ensures FloorTo(t, b) == t
  {
  }

  /** A strictly increasing sequence with k added, if it is not there already. */
  function Insert(keys: seq<int>, k: int): (r: seq<int>)
    requires StrictlyIncreasing(keys)
    ensures StrictlyIncreasing(r)
    ensures forall x :: x in r <==> x in keys || x == k
    ensures |r| <= |keys| + 1
  {
    if keys == [] then [k]
    else if k < keys[0] then
      assert forall i :: 0 <= i < |keys| ==> k < keys[i] by {
        forall i | 0 <= i < |keys|
          ensures k < keys[i]
        {
          assert i == 0 || keys[0] < keys[i];
        }
      }
      ConsIncreasing(k, keys);
      [k] + keys
    else if k == keys[0] then keys
    else
      TailElements(keys);
      var rest := Insert(keys[1..], k);
      assert forall i :: 0 <= i < |rest| ==> keys[0] < rest[i] by {
        forall i | 0 <= i < |rest|
          ensures keys[0] < rest[i]
        {
          assert rest[i] in rest;
        }
      }
      ConsIncreasing(keys[0], rest);
      [keys[0]] + rest
  }

  /** The distinct floored timestamps of the rows, in ascending order: the group
      keys of the groupby. */
  function BucketKeys(rows: seq<Row>, b: int): (keys: seq<int>)
    requires b > 0
    ensures StrictlyIncreasing(keys)
    ensures |keys| <= |rows|
    ensures forall k :: k in keys <==> exists j :: 0 <= j < |rows| && FloorTo(rows[j].ts, b) == k
  {
    if rows == [] then []
    else
      var rest := BucketKeys(rows[1..], b);
      var keys := Insert(rest, FloorTo(rows[0].ts, b));
      assert forall k :: k in keys <==> exists j :: 0 <= j < |rows| && FloorTo(rows[j].ts, b) == k by {
        forall k | exists j :: 0 <= j < |rows| && FloorTo(rows[j].ts, b) == k
          ensures k in keys
        {
          var j :| 0 <= j < |rows| && FloorTo(rows[j].ts, b) == k;
          if j > 0 {
            assert rows[1..][j - 1] == rows[j];
          }
        }
        forall k | k in rest
          ensures exists j :: 0 <= j < |rows| && FloorTo(rows[j].ts, b) == k
        {
          var j :| 0 <= j < |rows[1..]| && FloorTo(rows[1..][j].ts, b) == k;
          assert rows[j + 1] == rows[1..][j];
        }
      }
      keys
  }

  /** The rows whose floored timestamp is k, in their original order. */
  function Group(rows: seq<Row>, b: int, k: int): (g: seq<Row>)
    requires b > 0
    ensures |g| <= |rows|
    ensures forall r :: r in g <==> r in rows && FloorTo(r.ts, b) == k
  {
    if rows == [] then []
    else (if FloorTo(rows[0].ts, b) == k then [rows[0]] else []) + Group(rows[1..], b, k)
  }

  /** One ticker's cells over a sequence of rows. */
  function Values(g: seq<Row>, t: Ticker): (xs: seq<Option<real>>)
    ensures |xs| == |g|
    ensures forall i :: 0 <= i < |g| ==> xs[i] == g[i].Get(t)
  {
    seq(|g|, i requires 0 <= i < |g| => g[i].Get(t))
  }

  /** The values that are present, in order. */
  function Present(xs: seq<Option<real>>): (p: seq<real>)
    ensures |p| <= |xs|
    ensures |p| == 0 <==> forall i :: 0 <= i < |xs| ==> xs[i].None?
  {
    if xs == [] then []
    else
      var rest := Present(xs[1..]);
      assert forall i :: 1 <= i < |xs| ==> xs[i] == xs[1..][i - 1];
      (if xs[0].Some? then [xs[0].value] else []) + rest
  }

  function Sum(p: seq<real>): real {
    if p == [] then 0.0 else p[0] + Sum(p[1..])
  }

  /** The mean of the values that are present, as pandas' mean skips missing
      values; missing only when every value is missing. */
  function MeanPresent(xs: seq<Option<real>>): (m: Option<real>)
    ensures m.None? <==> forall i :: 0 <= i < |xs| ==> xs[i].None?
  {
    var p := Present(xs);
    if |p| == 0 then None else Some(Sum(p) / |p| as real)
  }

  /** Grouping distributes over concatenation, so a group keeps the input order. */
  lemma {:induction false} GroupAppend(a: seq<Row>, c: seq<Row>, b: int, k: int)
    requires b > 0
    ensures Group(a + c, b, k) == Group(a, b, k) + Group(c, b, k)
  {
    if a == [] {
      assert a + c == c;
    } else {
      assert (a + c)[1..] == a[1..] + c;
      GroupAppend(a[1..], c, b, k);
    }
  }

  /** A row floored to k is in its group as often as in the input; any other
      row is not in it at all. */
  lemma {:induction false} GroupCounts(rows: seq<Row>, b: int, k: int)
    requires b > 0
    ensures forall r ::
      multiset(Group(rows, b, k))[r] == if FloorTo(r.ts, b) == k then multiset(rows)[r] else 0
  {
    if rows != [] {
      GroupCounts(rows[1..], b, k);
      assert rows == [rows[0]] + rows[1..];
    }
  }

  /** Picking the present values distributes over concatenation, so they keep
      their order. */
  lemma PresentCons(x: Option<real>, xs: seq<Option<real>>)
    ensures Present([x] + xs) == (if x.Some? then [x.value] else []) + Present(xs)
  {
    assert ([x] + xs)[1..] == xs;
  }

  lemma {:induction false} PresentAppend(a: seq<Option<real>>, c: seq<Option<real>>)
    ensures Present(a + c) == Present(a) + Present(c)
  {
    if a == [] {
      assert a + c == c;
    } else {
      assert a == [a[0]] + a[1..];
      assert a + c == [a[0]] + (a[1..] + c);
      PresentCons(a[0], a[1..]);
      PresentCons(a[0], a[1..] + c);
      PresentAppend(a[1..], c);
    }
  }

  /** Every present value is kept as often as it occurs. */
  lemma {:induction false} PresentCounts(xs: seq<Option<real>>)
    ensures forall v :: multiset(Present(xs))[v] == multiset(xs)[Some(v)]
  {
    if xs != [] {
      PresentCounts(xs[1..]);
      assert xs == [xs[0]] + xs[1..];
    }
  }

  /** A missing cell anywhere in a column does not change its mean. */
  lemma MeanSkipsMissing(a: seq<Option<real>>, c: seq<Option<real>>)
    ensures MeanPresent(a + [None] + c) == MeanPresent(a + c)
  {
    var none: seq<Option<real>> := [None];
    assert none[1..] == [];
    assert Present(none) == [];
    PresentAppend(a, none);
    PresentAppend(a + none, c);
    PresentAppend(a, c);
    assert Present(a + none + c) == Present(a + c);
  }

  /** A column with every cell present. */
  function AllPresent(ys: seq<real>): (xs: seq<Option<real>>)
    ensures |xs| == |ys| && forall i :: 0 <= i < |ys| ==> xs[i] == Some(ys[i])
  {
    seq(|ys|, i requires 0 <= i < |ys| => Some(ys[i]))
  }

  lemma {:induction false} PresentOfAllPresent(ys: seq<real>)
    ensures Present(AllPresent(ys)) == ys
  {
    if ys != [] {
      assert AllPresent(ys)[1..] == AllPresent(ys[1..]);
      PresentOfAllPresent(ys[1..]);
    }
  }

  /** With every cell present the mean is the sum over the count. */
  lemma MeanAllPresent(ys: seq<real>)
    requires ys != []
    ensures MeanPresent(AllPresent(ys)) == Some(Sum(ys) / |ys| as real)
  {
    PresentOfAllPresent(ys);
  }

  /** Every cell of r is the mean of that ticker's present values over g. */
  predicate IsMeanOf(r: Row, g: seq<Row>) {
    && r.usdTry == MeanPresent(Values(g, UsdTry))
    && r.xu100 == MeanPresent(Values(g, Xu100))
    && r.goldFutures == MeanPresent(Values(g, GoldFutures))
    && r.btcUsd == MeanPresent(Values(g, BtcUsd))
  }

  /** The row a group collapses to: the key and the per-ticker means. */
  function Aggregate(k: int, g: seq<Row>): (r: Row)
    ensures r.ts == k && IsMeanOf(r, g)
  {
    Row(k, MeanPresent(Values(g, UsdTry)), MeanPresent(Values(g, Xu100)),
        MeanPresent(Values(g, GoldFutures)), MeanPresent(Values(g, BtcUsd)))
  }

  /** Floor every timestamp to b seconds, group equal floored timestamps in
      ascending order and average each ticker over the group. */
  function Resample(rows: seq<Row>, b: int): (r: seq<Row>)
    requires b > 0
    ensures |r| <= |rows|
    ensures rows != [] ==> r != []
    ensures StrictlyIncreasing(Times(r))
    ensures forall i :: 0 <= i < |r| ==> OnGrid(r[i].ts, b)
    ensures forall k :: k in Times(r) <==> exists j :: 0 <= j < |rows| && FloorTo(rows[j].ts, b) == k
    ensures forall i :: 0 <= i < |r| ==> IsMeanOf(r[i], Group(rows, b, r[i].ts))
  {
    var keys := BucketKeys(rows, b);
    var r := seq(|keys|, i requires 0 <= i < |keys| => Aggregate(keys[i], Group(rows, b, keys[i])));
    assert forall i :: 0 <= i < |r| ==> IsMeanOf(r[i], Group(rows, b, r[i].ts)) by {
      forall i | 0 <= i < |r|
        ensures IsMeanOf(r[i], Group(rows, b, r[i].ts))
      {
        var a := Aggregate(keys[i], Group(rows, b, keys[i]));
        assert r[i] == a && a.ts == keys[i];
      }
    }
    assert Times(r) == keys;
    assert rows != [] ==> FloorTo(rows[0].ts, b) in keys by {
      if rows != [] {
        assert 0 <= 0 < |rows| && FloorTo(rows[0].ts, b) == FloorTo(rows[0].ts, b);
      }
    }
    assert forall i :: 0 <= i < |r| ==> OnGrid(r[i].ts, b) by {
      forall i | 0 <= i < |r|
        ensures OnGrid(r[i].ts, b)
      {
        assert keys[i] in keys;
        var j :| 0 <= j < |rows| && FloorTo(rows[j].ts, b) == keys[i];
      }
    }
    r
  }

  /** The resample stage: applied only for the tags "1h" and "15T". */
  function ResampleFor(interval: string, rows: seq<Row>): (r: seq<Row>)
    ensures BucketSeconds(interval).None? ==> r == rows
    ensures BucketSeconds(interval).Some? ==> r == Resample(rows, BucketSeconds(interval).value)
  {
    match BucketSeconds(interval)
    case Some(b) => Resample(rows, b)
    case None => rows
  }

  /** The mean of a single cell is that cell. */
  lemma MeanOfOne(x: Option<real>)
    ensures MeanPresent([x]) == x
  {
    assert [x][1..] == [];
    if x.Some? {
      assert Present([x]) == [x.value];
      assert Sum([x.value]) == x.value + Sum([]);
    }
  }

  /** In rows whose timestamps are distinct multiples of b, the group of key k
      is the one row stamped k, or nothing. */
  lemma {:induction false} GroupOfGrid(r: seq<Row>, b: int, k: int)
    requires b > 0
    requires StrictlyIncreasing(Times(r))
    requires forall j :: 0 <= j < |r| ==> OnGrid(r[j].ts, b)
    ensures forall i :: 0 <= i < |r| && r[i].ts == k ==> Group(r, b, k) == [r[i]]
    ensures (forall i :: 0 <= i < |r| ==> r[i].ts != k) ==> Group(r, b, k) == []
  {
    if r != [] {
      FloorOfMultiple(r[0].ts, b);
      assert Times(r[1..]) == Times(r)[1..];
      TailElements(Times(r));
      GroupOfGrid(r[1..], b, k);
      if r[0].ts == k {
        forall i | 0 <= i < |r[1..]|
          ensures r[1..][i].ts != k
        {
          assert Times(r)[0] < Times(r)[i + 1];
        }
      } else {
        forall i | 0 <= i < |r| && r[i].ts == k
          ensures Group(r, b, k) == [r[i]]
        {
          assert r[1..][i - 1] == r[i];
        }
        forall i | 0 <= i < |r[1..]|
          ensures r[1..][i] == r[i + 1]
        {
        }
      }
    }
  }

  /** A single row is its own mean. */
  lemma MeanOfSingleRow(x: Row)
    ensures IsMeanOf(x, [x])
  {
    assert Values([x], UsdTry) == [x.usdTry];
    assert Values([x], Xu100) == [x.xu100];
    assert Values([x], GoldFutures) == [x.goldFutures];
    assert Values([x], BtcUsd) == [x.btcUsd];
    MeanOfOne(x.usdTry);
    MeanOfOne(x.xu100);
    MeanOfOne(x.goldFutures);
    MeanOfOne(x.btcUsd);
  }

  /** Rows already on the grid keep their timestamps through resampling. */
  lemma ResampleKeepsGridTimes(r: seq<Row>, b: int)
    requires b > 0
    requires StrictlyIncreasing(Times(r))
    requires forall j :: 0 <= j < |r| ==> OnGrid(r[j].ts, b)
    ensures Times(Resample(r, b)) == Times(r)
  {
    var rr := Resample(r, b);
    forall k
      ensures k in Times(rr) <==> k in Times(r)
    {
      if k in Times(r) {
        var i :| 0 <= i < |r| && Times(r)[i] == k;
        FloorOfMultiple(r[i].ts, b);
      }
      if k in Times(rr) {
        var j :| 0 <= j < |r| && FloorTo(r[j].ts, b) == k;
        FloorOfMultiple(r[j].ts, b);
        assert Times(r)[j] == k;
      }
    }
    SortedUnique(Times(rr), Times(r));
  }

  /** Resampling rows whose timestamps are already strictly increasing
      multiples of the bucket changes nothing: every group is a single row. */
  lemma ResampleOfGrid(r: seq<Row>, b: int)
    requires b > 0
    requires StrictlyIncreasing(Times(r))
    requires forall j :: 0 <= j < |r| ==> OnGrid(r[j].ts, b)
    ensures Resample(r, b) == r
  {
    var rr := Resample(r, b);
    ResampleKeepsGridTimes(r, b);
    assert |rr| == |Times(rr)| == |Times(r)| == |r|;
    forall i | 0 <= i < |r|
      ensures rr[i] == r[i]
    {
      assert rr[i].ts == r[i].ts by {
        assert Times(rr)[i] == Times(r)[i];
      }
      GroupOfGrid(r, b, r[i].ts);
      MeanOfSingleRow(r[i]);
    }
  }

  /** Resampling resampled rows changes nothing. */
  lemma ResampleIdempotent(rows: seq<Row>, b: int)
    requires b > 0
    ensures Resample(Resample(rows, b), b) == Resample(rows, b)
  {
    ResampleOfGrid(Resample(rows, b), b);
  }

  // ---------------------------------------------------------------------------
  // Drop incomplete rows (helper.py:52-54)
  // ---------------------------------------------------------------------------

  predicate Complete(r: Row) {
    r.usdTry.Some? && r.xu100.Some? && r.goldFutures.Some? && r.btcUsd.Some?
  }

  function Narrow(r: Row): Quote
    requires Complete(r)
  {
    Quote(r.ts, r.usdTry.value, r.xu100.value, r.goldFutures.value, r.btcUsd.value)
  }

  function Widen(q: Quote): Row {
    Row(q.ts, Some(q.usdTry), Some(q.xu100), Some(q.goldFutures), Some(q.btcUsd))
  }

  /** The complete rows, in their original order. */
  function DropMissing(rows: seq<Row>): (q: seq<Quote>)
    ensures |q| <= |rows|
    ensures forall x :: x in q <==> Widen(x) in rows
    ensures q == [] <==> forall r :: r in rows ==> !Complete(r)
  {
    if rows == [] then []
    else
      var rest := DropMissing(rows[1..]);
      assert forall r :: r in rows ==> r == rows[0] || r in rows[1..];
      if Complete(rows[0]) then [Narrow(rows[0])] + rest else rest
  }

  /** Dropping distributes over concatenation, so the kept rows stay in their
      input order, each kept once per occurrence. */
  lemma {:induction false} DropMissingAppend(a: seq<Row>, c: seq<Row>)
    ensures DropMissing(a + c) == DropMissing(a) + DropMissing(c)
  {
    if a == [] {
      assert a + c == c;
    } else {
      assert (a + c)[0] == a[0];
      assert (a + c)[1..] == a[1..] + c;
      DropMissingAppend(a[1..], c);
    }
  }

  /** A single row is kept exactly when it is complete. */
  lemma DropMissingOne(r: Row)
    ensures DropMissing([r]) == if Complete(r) then [Narrow(r)] else []
  {
    assert [r][1..] == [];
  }

  /** A table with no missing cell loses no row: the kept rows are the input
      rows, position by position. */
  lemma {:induction false} DropMissingComplete(rows: seq<Row>)
    requires forall i :: 0 <= i < |rows| ==> Complete(rows[i])
    ensures |DropMissing(rows)| == |rows|
    ensures forall i :: 0 <= i < |rows| ==> Widen(DropMissing(rows)[i]) == rows[i]
  {
    if rows != [] {
      DropMissingComplete(rows[1..]);
      var rest := DropMissing(rows[1..]);
      assert DropMissing(rows) == [Narrow(rows[0])] + rest;
      forall i | 0 <= i < |rows|
        ensures Widen(DropMissing(rows)[i]) == rows[i]
      {
        if i > 0 {
          assert DropMissing(rows)[i] == rest[i - 1];
          assert rows[1..][i - 1] == rows[i];
        }
      }
    }
  }

  /** A bound below every input timestamp is below every kept timestamp. */
  lemma DropMissingAbove(rows: seq<Row>, lo: int)
    requires forall i :: 0 <= i < |rows| ==> lo < rows[i].ts
    ensures forall i :: 0 <= i < |DropMissing(rows)| ==> lo < QuoteTimes(DropMissing(rows))[i]
  {
    var q := DropMissing(rows);
    forall i | 0 <= i < |q|
      ensures lo < QuoteTimes(q)[i]
    {
      assert q[i] in q;
      var j :| 0 <= j < |rows| && rows[j] == Widen(q[i]);
    }
  }

  /** The rows after the first of a strictly increasing table are strictly
      increasing and all later than the first. */
  lemma LaterRows(rows: seq<Row>)
    requires rows != [] && StrictlyIncreasing(Times(rows))
    ensures StrictlyIncreasing(Times(rows[1..]))
    ensures forall i :: 0 <= i < |rows[1..]| ==> rows[0].ts < rows[1..][i].ts
  {
    var tail := rows[1..];
    forall i, j | 0 <= i < j < |tail|
      ensures Times(tail)[i] < Times(tail)[j]
    {
      assert Times(rows)[i + 1] < Times(rows)[j + 1];
    }
    forall i | 0 <= i < |tail|
      ensures rows[0].ts < tail[i].ts
    {
      assert Times(rows)[0] < Times(rows)[i + 1];
    }
  }

  /** A complete first row is kept in front of the survivors of the rest. */
  lemma DropMissingCons(rows: seq<Row>)
    requires rows != [] && Complete(rows[0])
    ensures QuoteTimes(DropMissing(rows)) == [rows[0].ts] + QuoteTimes(DropMissing(rows[1..]))
  {
    assert DropMissing(rows) == [Narrow(rows[0])] + DropMissing(rows[1..]);
  }

  /** Dropping rows keeps the survivors in their order. */
  lemma {:induction false} DropMissingKeepsOrder(rows: seq<Row>)
    requires StrictlyIncreasing(Times(rows))
    ensures StrictlyIncreasing(QuoteTimes(DropMissing(rows)))
  {
    if rows != [] {
      LaterRows(rows);
      DropMissingKeepsOrder(rows[1..]);
      if Complete(rows[0]) {
        DropMissingAbove(rows[1..], rows[0].ts);
        ConsIncreasing(rows[0].ts, QuoteTimes(DropMissing(rows[1..])));
        DropMissingCons(rows);
      }
    }
  }

  // ---------------------------------------------------------------------------
  // Derive cross-rates and select the final columns (helper.py:57-71)
  // ---------------------------------------------------------------------------

  /** Gold and bitcoin priced in lira: each multiplied by the dollar-lira rate. */
  function Derive(qs: seq<Quote>): (ls: seq<Level>)
    ensures |ls| == |qs|
    ensures forall i :: 0 <= i < |qs| ==>
      && ls[i].ts == qs[i].ts
      && ls[i].usd == qs[i].usdTry
      && ls[i].bist == qs[i].xu100
      && ls[i].gold == qs[i].goldFutures * qs[i].usdTry
      && ls[i].btc == qs[i].btcUsd * qs[i].usdTry
  {
    seq(|qs|, i requires 0 <= i < |qs| =>
      Level(qs[i].ts, qs[i].usdTry, qs[i].xu100,
            qs[i].goldFutures * qs[i].usdTry, qs[i].btcUsd * qs[i].usdTry))
  }

  /** The dollar prices are recovered from a derived row by dividing by the rate. */
  lemma DeriveRecoversDollarPrices(qs: seq<Quote>, i: int)
    requires 0 <= i < |qs| && qs[i].usdTry != 0.0
    ensures Derive(qs)[i].gold / Derive(qs)[i].usd == qs[i].goldFutures
    ensures Derive(qs)[i].btc / Derive(qs)[i].usd == qs[i].btcUsd
  {
  }

  // ---------------------------------------------------------------------------
  // Normalise (helper.py:72)
  // ---------------------------------------------------------------------------

  predicate NonZero(l: Level) {
    l.usd != 0.0 && l.bist != 0.0 && l.gold != 0.0 && l.btc != 0.0
  }

  /** Every column divided by its first-row value. */
  function Normalize(ls: seq<Level>): (ns: seq<Level>)
    requires |ls| > 0 && NonZero(ls[0])
    ensures |ns| == |ls|
    ensures forall i :: 0 <= i < |ls| ==>
      && ns[i].ts == ls[i].ts
      && ns[i].usd == ls[i].usd / ls[0].usd
      && ns[i].bist == ls[i].bist / ls[0].bist
      && ns[i].gold == ls[i].gold / ls[0].gold
      && ns[i].btc == ls[i].btc / ls[0].btc
    ensures ns[0] == Level(ls[0].ts, 1.0, 1.0, 1.0, 1.0)
  {
    var b := ls[0];
    seq(|ls|, i requires 0 <= i < |ls| =>
      Level(ls[i].ts, ls[i].usd / b.usd, ls[i].bist / b.bist, ls[i].gold / b.gold, ls[i].btc / b.btc))
  }

  /** Normalising a normalised table changes nothing. */
  lemma NormalizeIdempotent(ls: seq<Level>)
    requires |ls| > 0 && NonZero(ls[0])
    ensures Normalize(Normalize(ls)) == Normalize(ls)
  {
  }

  // ---------------------------------------------------------------------------
  // Rename and emit (helper.py:74-89)
  // ---------------------------------------------------------------------------

  /** Derived column names and their display names. */
  const IndexMapping: map<string, string> :=
    map["TRY=X" := "USD", "XU100.IS" := "BIST", "GC=FxTRY=X" := "GOLD", "BTC-USDxTRY=X" := "BTC"]

  /** The table as lists keyed by column symbol (the derived columns carry the
      names given to them when they were inserted). */
  function ByColumn(ns: seq<Level>): (m: map<string, seq<real>>)
    ensures m.Keys == IndexMapping.Keys
    ensures forall k :: k in m ==> |m[k]| == |ns|
    ensures forall i :: 0 <= i < |ns| ==>
      && m["TRY=X"][i] == ns[i].usd
      && m["XU100.IS"][i] == ns[i].bist
      && m["GC=FxTRY=X"][i] == ns[i].gold
      && m["BTC-USDxTRY=X"][i] == ns[i].btc
  {
    map["TRY=X" := seq(|ns|, i requires 0 <= i < |ns| => ns[i].usd),
        "XU100.IS" := seq(|ns|, i requires 0 <= i < |ns| => ns[i].bist),
        "GC=FxTRY=X" := seq(|ns|, i requires 0 <= i < |ns| => ns[i].gold),
        "BTC-USDxTRY=X" := seq(|ns|, i requires 0 <= i < |ns| => ns[i].btc)]
  }

  /** Every column renamed to its display name. */
  function Rename(cols: map<string, seq<real>>): (m: map<string, seq<real>>)
    requires cols.Keys == IndexMapping.Keys
    ensures m.Keys == {"USD", "BIST", "GOLD", "BTC"}
    ensures m["USD"] == cols["TRY=X"] && m["BIST"] == cols["XU100.IS"]
    ensures m["GOLD"] == cols["GC=FxTRY=X"] && m["BTC"] == cols["BTC-USDxTRY=X"]
  {
    assert IndexMapping.Keys == {"TRY=X", "XU100.IS", "GC=FxTRY=X", "BTC-USDxTRY=X"};
    map k | k in cols :: IndexMapping[k] := cols[k]
  }

  /** Rendered timestamps and the series renamed to display names. */
  function Emit(ns: seq<Level>, render: int -> string): (p: Page)
    ensures |p.ditis| == |ns|
    ensures forall i :: 0 <= i < |ns| ==> p.ditis[i] == render(ns[i].ts)
    ensures p.series.Keys == {"USD", "BIST", "GOLD", "BTC"}
    ensures forall name :: name in p.series ==> |p.series[name]| == |ns|
    ensures forall i :: 0 <= i < |ns| ==>
      && p.series["USD"][i] == ns[i].usd
      && p.series["BIST"][i] == ns[i].bist
      && p.series["GOLD"][i] == ns[i].gold
      && p.series["BTC"][i] == ns[i].btc
  {
    var ditis := seq(|ns|, i requires 0 <= i < |ns| => render(ns[i].ts));
    Page(ditis, Rename(ByColumn(ns)))
  }

  // ---------------------------------------------------------------------------
  // The pipeline (helper.py:25-91)
  // ---------------------------------------------------------------------------

  /** Every cell of the charted field of the four tickers is positive, as
      prices are; the other fields (volumes, say) are not constrained. */
  predicate PositivePrices(t: RawTable, field: string) {
    forall i, s: Ticker :: 0 <= i < |t.rows| && Key(field, s.Symbol()) in t.rows[i].cells ==>
      t.rows[i].cells[Key(field, s.Symbol())] > 0.0
  }

  /** The rows that survive resampling and dropping, when the columns exist. */
  function Survivors(t: RawTable, interval: string, field: string): (q: seq<Quote>)
    requires FirstMissing(t, field).None?
  {
    DropMissing(ResampleFor(interval, SelectColumns(t, field).value))
  }

  /** The first surviving row, if any, has no zero value once gold and bitcoin
      are priced in lira: the normalising baseline is never zero. */
  predicate BaselineNonZero(t: RawTable, interval: string, field: string) {
    FirstMissing(t, field).None? && Survivors(t, interval, field) != [] ==>
      NonZero(Derive(Survivors(t, interval, field))[0])
  }

  /** The shape every emitted page has: the four display names, one value per
      timestamp in every series, and a baseline of 1 in every series. */
  predicate WellFormedPage(p: Page) {
    && p.series.Keys == {"USD", "BIST", "GOLD", "BTC"}
    && |p.ditis| > 0
    && forall name :: name in p.series ==> |p.series[name]| == |p.ditis| && p.series[name][0] == 1.0
  }

  /** The whole preparation of the index page, from the downloaded table to the
      rendered timestamps and display series. */
  function PrepareIndexPageData(t: RawTable, from: string, to: string, interval: string,
                                field: string, render: int -> string): (r: Result<Page, Error>)
    requires BaselineNonZero(t, interval, field)
    ensures |t.rows| == 0 ==> r == Failure(NoData(from, to))
    ensures r.Failure? && r.error.NoData? ==> r.error == NoData(from, to)
    ensures r.Failure? && r.error.MissingColumn? ==>
      |t.rows| > 0 && r.error.key !in t.columns && r.error.key.field == field
    ensures |t.rows| > 0 && FirstMissing(t, field).Some? ==>
      r == Failure(MissingColumn(FirstMissing(t, field).value))
    ensures |t.rows| > 0 && FirstMissing(t, field).None? && Survivors(t, interval, field) == [] ==>
      r == Failure(NoData(from, to))
    ensures r.Success? <==>
      |t.rows| > 0 && FirstMissing(t, field).None? && Survivors(t, interval, field) != []
    ensures r.Success? ==> WellFormedPage(r.value)
  {
    if |t.rows| < 1 then Failure(NoData(from, to))
    else
      var selected :- SelectColumns(t, field);
      var rows := ResampleFor(interval, selected);
      var quotes := DropMissing(rows);
      if |quotes| < 1 then Failure(NoData(from, to))
      else
        assert quotes == Survivors(t, interval, field);
        FinishedPage(quotes, render);
        Success(Emit(Normalize(Derive(quotes)), render))
  }

  /** The series of p are the derived values of q, row by row, each over its
      value in the first row. */
  predicate NormalisedFrom(p: Page, q: seq<Quote>) {
    && |q| > 0 && NonZero(Derive(q)[0])
    && p.series.Keys == {"USD", "BIST", "GOLD", "BTC"}
    && (forall name :: name in p.series ==> |p.series[name]| == |q|)
    && (forall i :: 0 <= i < |q| ==>
         && p.series["USD"][i] == q[i].usdTry / q[0].usdTry
         && p.series["BIST"][i] == q[i].xu100 / q[0].xu100
         && p.series["GOLD"][i] == (q[i].goldFutures * q[i].usdTry) / (q[0].goldFutures * q[0].usdTry)
         && p.series["BTC"][i] == (q[i].btcUsd * q[i].usdTry) / (q[0].btcUsd * q[0].usdTry))
  }

  /** On success the emitted timestamps are those of the surviving rows, in
      order, and every series is the survivors' (derived) value over its first. */
  lemma PreparedValues(t: RawTable, from: string, to: string, interval: string,
                       field: string, render: int -> string, p: Page)
    requires BaselineNonZero(t, interval, field)
    requires PrepareIndexPageData(t, from, to, interval, field, render) == Success(p)
    ensures FirstMissing(t, field).None?
    ensures |p.ditis| == |Survivors(t, interval, field)| > 0
    ensures forall i :: 0 <= i < |p.ditis| ==> p.ditis[i] == render(Survivors(t, interval, field)[i].ts)
    ensures NormalisedFrom(p, Survivors(t, interval, field))
  {
    var q := Survivors(t, interval, field);
    assert p == Emit(Normalize(Derive(q)), render);
    FinishedPage(q, render);
    FinishedValues(q, render);
  }

  /** For the resampled tags the surviving rows are stamped with strictly
      increasing multiples of the bucket width. */
  lemma ResampledSurvivorsOnGrid(t: RawTable, interval: string, field: string)
    requires FirstMissing(t, field).None? && BucketSeconds(interval).Some?
    ensures StrictlyIncreasing(QuoteTimes(Survivors(t, interval, field)))
    ensures forall q :: q in Survivors(t, interval, field) ==> OnGrid(q.ts, BucketSeconds(interval).value)
  {
    var b := BucketSeconds(interval).value;
    var rows := Resample(SelectColumns(t, field).value, b);
    DropMissingKeepsOrder(rows);
    forall q | q in Survivors(t, interval, field)
      ensures OnGrid(q.ts, b)
    {
      var j :| 0 <= j < |rows| && rows[j] == Widen(q);
    }
  }

  /** The page built from the surviving rows is well formed and carries their
      rendered timestamps in order. */
  lemma FinishedPage(q: seq<Quote>, render: int -> string)
    requires |q| > 0 && NonZero(Derive(q)[0])
    ensures WellFormedPage(Emit(Normalize(Derive(q)), render))
    ensures |Emit(Normalize(Derive(q)), render).ditis| == |q|
    ensures forall i :: 0 <= i < |q| ==> Emit(Normalize(Derive(q)), render).ditis[i] == render(q[i].ts)
  {
    var ls := Derive(q);
    var ns := Normalize(ls);
    var p := Emit(ns, render);
    forall name | name in p.series
      ensures |p.series[name]| == |p.ditis| && p.series[name][0] == 1.0
    {
      assert ns[0] == Level(ls[0].ts, 1.0, 1.0, 1.0, 1.0);
    }
  }

  /** Position i of every emitted series is the survivors' derived value over
      its first value. */
  lemma FinishedValueAt(q: seq<Quote>, ns: seq<Level>, p: Page, i: int)
    requires 0 <= i < |q| && NonZero(Derive(q)[0])
    requires ns == Normalize(Derive(q))
    requires p.series.Keys == {"USD", "BIST", "GOLD", "BTC"}
    requires forall name :: name in p.series ==> |p.series[name]| == |ns|
    requires forall j :: 0 <= j < |ns| ==>
      && p.series["USD"][j] == ns[j].usd
      && p.series["BIST"][j] == ns[j].bist
      && p.series["GOLD"][j] == ns[j].gold
      && p.series["BTC"][j] == ns[j].btc
    ensures p.series["USD"][i] == q[i].usdTry / q[0].usdTry
    ensures p.series["BIST"][i] == q[i].xu100 / q[0].xu100
    ensures p.series["GOLD"][i] == (q[i].goldFutures * q[i].usdTry) / (q[0].goldFutures * q[0].usdTry)
    ensures p.series["BTC"][i] == (q[i].btcUsd * q[i].usdTry) / (q[0].btcUsd * q[0].usdTry)
  {
    var ls := Derive(q);
    assert ls[i].gold == q[i].goldFutures * q[i].usdTry && ls[0].gold == q[0].goldFutures * q[0].usdTry;
    assert ls[i].btc == q[i].btcUsd * q[i].usdTry && ls[0].btc == q[0].btcUsd * q[0].usdTry;
    assert p.series["GOLD"][i] == ns[i].gold == ls[i].gold / ls[0].gold;
    assert p.series["BTC"][i] == ns[i].btc == ls[i].btc / ls[0].btc;
  }

  /** Every emitted series is the survivors' derived value over its first value. */
  lemma FinishedValues(q: seq<Quote>, render: int -> string)
    requires |q| > 0 && NonZero(Derive(q)[0])
    ensures NormalisedFrom(Emit(Normalize(Derive(q)), render), q)
  {
    var ns := Normalize(Derive(q));
    var p := Emit(ns, render);
    forall i | 0 <= i < |q| {
      FinishedValueAt(q, ns, p, i);
    }
  }

  // ---------------------------------------------------------------------------
  // Positivity is kept by every stage, so the baseline is never zero
  // ---------------------------------------------------------------------------

  predicate PositiveRow(r: Row) {
    forall t: Ticker :: r.Get(t).Some? ==> r.Get(t).value > 0.0
  }

  lemma {:induction false} SumPositive(p: seq<real>)
    requires p != [] && forall i :: 0 <= i < |p| ==> p[i] > 0.0
    ensures Sum(p) > 0.0
  {
    if |p| > 1 {
      SumPositive(p[1..]);
    }
  }

  /** The present values of a column of positive cells are positive. */
  lemma {:induction false} PresentPositive(xs: seq<Option<real>>)
    requires forall i :: 0 <= i < |xs| && xs[i].Some? ==> xs[i].value > 0.0
    ensures forall i :: 0 <= i < |Present(xs)| ==> Present(xs)[i] > 0.0
  {
    if xs != [] {
      PresentPositive(xs[1..]);
    }
  }

  /** The mean of positive values is positive. */
  lemma MeanPositive(xs: seq<Option<real>>)
    requires forall i :: 0 <= i < |xs| && xs[i].Some? ==> xs[i].value > 0.0
    ensures MeanPresent(xs).Some? ==> MeanPresent(xs).value > 0.0
  {
    var p := Present(xs);
    if |p| > 0 {
      PresentPositive(xs);
      SumPositive(p);
    }
  }

  /** A cell of an aggregated row is the mean of that ticker's column. */
  lemma MeanCell(x: Row, g: seq<Row>, t: Ticker)
    requires IsMeanOf(x, g)
    ensures x.Get(t) == MeanPresent(Values(g, t))
  {
  }

  /** A group of positive rows has positive cells in every column. */
  lemma GroupValuesPositive(rows: seq<Row>, b: int, k: int, t: Ticker)
    requires b > 0
    requires forall i :: 0 <= i < |rows| ==> PositiveRow(rows[i])
    ensures forall j :: 0 <= j < |Group(rows, b, k)| && Values(Group(rows, b, k), t)[j].Some? ==>
      Values(Group(rows, b, k), t)[j].value > 0.0
  {
    var g := Group(rows, b, k);
    forall j | 0 <= j < |g| && Values(g, t)[j].Some?
      ensures Values(g, t)[j].value > 0.0
    {
      assert g[j] in g;
      var m :| 0 <= m < |rows| && rows[m] == g[j];
      assert PositiveRow(rows[m]);
    }
  }

  lemma ResamplePositive(rows: seq<Row>, b: int)
    requires b > 0
    requires forall i :: 0 <= i < |rows| ==> PositiveRow(rows[i])
    ensures forall i :: 0 <= i < |Resample(rows, b)| ==> PositiveRow(Resample(rows, b)[i])
  {
    var r := Resample(rows, b);
    forall i | 0 <= i < |r|
      ensures PositiveRow(r[i])
    {
      var g := Group(rows, b, r[i].ts);
      forall t: Ticker
        ensures r[i].Get(t).Some? ==> r[i].Get(t).value > 0.0
      {
        GroupValuesPositive(rows, b, r[i].ts, t);
        MeanPositive(Values(g, t));
        MeanCell(r[i], g, t);
      }
    }
  }

  lemma SelectPositive(t: RawTable, field: string)
    requires PositivePrices(t, field) && SelectColumns(t, field).Success?
    ensures forall i :: 0 <= i < |SelectColumns(t, field).value| ==>
      PositiveRow(SelectColumns(t, field).value[i])
  {
    var sel := SelectColumns(t, field).value;
    forall i, s: Ticker | 0 <= i < |sel| && sel[i].Get(s).Some?
      ensures sel[i].Get(s).value > 0.0
    {
      assert Key(field, s.Symbol()) in t.rows[i].cells;
    }
  }

  predicate PositiveQuote(q: Quote) {
    q.usdTry > 0.0 && q.xu100 > 0.0 && q.goldFutures > 0.0 && q.btcUsd > 0.0
  }

  lemma DropPositive(rows: seq<Row>)
    requires forall i :: 0 <= i < |rows| ==> PositiveRow(rows[i])
    ensures forall q :: q in DropMissing(rows) ==> PositiveQuote(q)
  {
    forall q | q in DropMissing(rows)
      ensures PositiveQuote(q)
    {
      var j :| 0 <= j < |rows| && rows[j] == Widen(q);
      assert PositiveRow(rows[j]);
      assert rows[j].Get(UsdTry) == Some(q.usdTry);
      assert rows[j].Get(Xu100) == Some(q.xu100);
      assert rows[j].Get(GoldFutures) == Some(q.goldFutures);
      assert rows[j].Get(BtcUsd) == Some(q.btcUsd);
    }
  }

  lemma DeriveNonZero(qs: seq<Quote>)
    requires forall q :: q in qs ==> PositiveQuote(q)
    ensures forall i :: 0 <= i < |Derive(qs)| ==> NonZero(Derive(qs)[i])
  {
    forall i | 0 <= i < |qs|
      ensures NonZero(Derive(qs)[i])
    {
      assert qs[i] in qs;
      PositiveProduct(qs[i].goldFutures, qs[i].usdTry);
      PositiveProduct(qs[i].btcUsd, qs[i].usdTry);
    }
  }

  /** With positive prices in the charted field every derived row is nonzero,
      so the normalisation baseline is never zero. */
  lemma PositiveThroughPipeline(t: RawTable, interval: string, field: string)
    requires PositivePrices(t, field)
    requires FirstMissing(t, field).None?
    ensures forall i :: 0 <= i < |Derive(Survivors(t, interval, field))| ==>
      NonZero(Derive(Survivors(t, interval, field))[i])
    ensures BaselineNonZero(t, interval, field)
  {
    var sel := SelectColumns(t, field).value;
    SelectPositive(t, field);
    if BucketSeconds(interval).Some? {
      ResamplePositive(sel, BucketSeconds(interval).value);
    }
    DropPositive(ResampleFor(interval, sel));
    DeriveNonZero(Survivors(t, interval, field));
  }

  /** Positive prices in the charted field are enough for the preparation's
      precondition, whatever the other fields hold. */
  lemma PositivePricesSuffice(t: RawTable, interval: string, field: string)
    requires PositivePrices(t, field)
    ensures BaselineNonZero(t, interval, field)
  {
    if FirstMissing(t, field).None? {
      PositiveThroughPipeline(t, interval, field);
    }
  }

  lemma PositiveProduct(x: real, y: real)
    requires x > 0.0 && y > 0.0
    ensures x * y > 0.0
  {
  }
}
