/** The request handler of the index page, without its web framework: the
    date range is taken from the query or from the default range, its span in
    hours chooses the download interval, the series are prepared, and a quarter
    of the span becomes the step of the pan and zoom links. */
module IndexView {
  import opened Wrappers
  import SeriesPrep

  /** The price field the index page always charts. */
  const DataType: string := "Close"

  /** The interval tag asked of the market-data service for a span of diff
      hours: daily above eight days, hourly above two days, else 15-minute. */
  function SelectInterval(diff: int): (tag: string)
    ensures tag == "1d" <==> diff > 8 * 24
    ensures tag == "1h" <==> 2 * 24 < diff <= 8 * 24
    ensures tag == "15m" <==> diff <= 2 * 24
  {
    if diff > 8 * 24 then "1d"
    else if diff > 2 * 24 then "1h"
    else "15m"
  }

  /** The width of one bar of each interval tag, in seconds. The handler never
      computes it; it is here only to state that longer spans get coarser bars. */
  function BarSeconds(tag: string): (s: int)
    ensures s > 0
  {
    if tag == "1d" then 86400
    else if tag == "1h" then 3600
    else 900
  }

  /** A longer span never gets finer bars. */
  lemma LongerSpansCoarserBars(d1: int, d2: int)
    requires d1 <= d2
    ensures BarSeconds(SelectInterval(d1)) <= BarSeconds(SelectInterval(d2))
  {
  }

  /** The boundary spans fall on the finer side, since both comparisons are strict. */
  lemma IntervalBoundaries()
    ensures SelectInterval(200) == "1d"
    ensures SelectInterval(193) == "1d" && SelectInterval(192) == "1h"
    ensures SelectInterval(168) == "1h" && SelectInterval(50) == "1h"
    ensures SelectInterval(49) == "1h" && SelectInterval(48) == "15m"
    ensures SelectInterval(10) == "15m" && SelectInterval(-5) == "15m"
  {
  }

  /** The 15-minute tag chosen for short spans is not one of the tags the
      preparation resamples ("15T" is), so short spans reach the page with the
      provider's own timestamps. */
  lemma ShortSpansAreNotResampled(diff: int, rows: seq<SeriesPrep.Row>)
    requires diff <= 2 * 24
    ensures SeriesPrep.BucketSeconds(SelectInterval(diff)).None?
    ensures SeriesPrep.ResampleFor(SelectInterval(diff), rows) == rows
  {
  }

  /** Spans of two to eight days are resampled to whole hours; longer ones are not. */
  lemma HourlySpansAreResampled(diff: int)
    ensures 2 * 24 < diff <= 8 * 24 ==> SeriesPrep.BucketSeconds(SelectInterval(diff)) == Some(3600)
    ensures diff > 8 * 24 ==> SeriesPrep.BucketSeconds(SelectInterval(diff)).None?
  {
  }

  /** A quarter of the span, truncated toward zero as converting the quotient
      to an integer does. */
  function StepSize(diff: int): (s: int)
    ensures diff >= 0 ==> 0 <= 4 * s <= diff < 4 * (s + 1)
    ensures diff < 0 ==> 4 * (s - 1) < diff <= 4 * s <= 0
  {
    if diff >= 0 then diff / 4 else -((-diff) / 4)
  }

  /** Truncation is symmetric about zero. */
  lemma StepSizeIsOdd(diff: int)
    ensures StepSize(-diff) == -StepSize(diff)
  {
  }

  /** For a negative span that is not a multiple of four, truncation lands one
      above the floor of the quotient. */
  lemma StepSizeAboveFloorForNegativeSpans(diff: int)
    requires diff < 0 && diff % 4 != 0
    ensures StepSize(diff) == diff / 4 + 1
  {
  }

  /** A query argument, or the default when the query does not carry it. */
  function ArgOr(args: map<string, string>, name: string, default: string): (v: string)
    ensures name in args ==> v == args[name]
    ensures name !in args ==> v == default
  {
    if name in args then args[name] else default
  }

  /** What the page is rendered from: the prepared series, the interval they
      were fetched at, the step of the navigation links and the end of the range. */
  datatype View = View(page: SeriesPrep.Page, interval: string, stepSize: int, toDiti: string)

  /** The index handler. The default range, the span in hours of a range, the
      download and the rendering of a timestamp are outside this model and come
      in as parameters. The preparation must not meet a zero baseline in the
      table downloaded for the requested range. */
  function Index(args: map<string, string>, initFrom: string, initTo: string,
                 spanHours: (string, string) -> int,
                 download: (string, string, string) -> SeriesPrep.RawTable,
                 render: int -> string): (r: Result<View, SeriesPrep.Error>)
    requires
      var from := ArgOr(args, "fDiti", initFrom);
      var to := ArgOr(args, "tDiti", initTo);
      var interval := SelectInterval(spanHours(from, to));
      SeriesPrep.BaselineNonZero(download(from, to, interval), interval, DataType)
    ensures
      var from := if "fDiti" in args then args["fDiti"] else initFrom;
      var to := if "tDiti" in args then args["tDiti"] else initTo;
      var diff := spanHours(from, to);
      var table := download(from, to, SelectInterval(diff));
      var prepared := SeriesPrep.PrepareIndexPageData(table, from, to, SelectInterval(diff), DataType, render);
      && (r.Success? <==> prepared.Success?)
      && (r.Success? ==>
            && r.value.page == prepared.value
            && r.value.interval == SelectInterval(diff)
            && r.value.stepSize == StepSize(diff)
            && r.value.toDiti == to
            && SeriesPrep.WellFormedPage(r.value.page))
      && (r.Failure? ==> r.error == prepared.error)
      && (r.Failure? && r.error.NoData? ==> r.error == SeriesPrep.NoData(from, to))
      && (|table.rows| == 0 ==> r == Failure(SeriesPrep.NoData(from, to)))
  {
    var from := ArgOr(args, "fDiti", initFrom);
    var to := ArgOr(args, "tDiti", initTo);
    var diff := spanHours(from, to);
    var interval := SelectInterval(diff);
    var page :- SeriesPrep.PrepareIndexPageData(download(from, to, interval), from, to, interval,
                                                DataType, render);
    Success(View(page, interval, StepSize(diff), to))
  }
}
