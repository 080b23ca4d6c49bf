/** The Saty pivot-ribbon reversal detector (`SignalSatypePivotRibbon`).

    `compute` classifies the latest bar into a pivot state (from the fast,
    pivot and slow EMAs) and a conviction state (from the fast and slow
    conviction EMAs), carries the persisted state forward where no rule
    applies, and fires, persisting the new states, only when either state
    changed. `compute_and_plot` scans the last 80 rows and places a marker
    wherever the classification changes.

    The EMA arithmetic itself is not modelled: an `EmaFn` gives the value of
    the EMA of a span at the last price of a prefix of the closes. */
module PivotRibbon {
  import opened Common
  import opened Signals
  import opened Tickers

  const SignalName: string := "EMA_Reversal"
  const PivotKey: string := "pivot_last_state"
  const ConvictionKey: string := "conviction_last_state"
  const BullishCloud: string := "bullish_cloud"
  const BearishCloud: string := "bearish_cloud"
  const Bullish: string := "bullish"
  const Bearish: string := "bearish"
  /** `df.tail(80)` in `compute_and_plot`. */
  const ChartRows: nat := 80

  /** The constructor's EMA spans. */
  datatype Ribbon = Ribbon(fastEma: nat, pivotEma: nat, slowEma: nat,
                           fastConvictionEma: nat, slowConvictionEma: nat, biasEma: nat)

  const DefaultRibbon: Ribbon := Ribbon(8, 21, 34, 13, 48, 21)

  /** `closes.ewm(span=w, adjust=False).mean()` read at the last of the given
      closes (an EMA at a row depends only on the rows up to it). */
  type EmaFn = (seq<real>, nat) -> real

  /** The five EMA values of one row that the classification compares. */
  datatype EmaRow = EmaRow(fast: real, pivot: real, slow: real,
                           fastConviction: real, slowConviction: real)

  function Closes(bars: seq<Bar>): (c: seq<real>)
    ensures |c| == |bars| && forall i :: 0 <= i < |bars| ==> c[i] == bars[i].close
  {
    seq(|bars|, i requires 0 <= i < |bars| => bars[i].close)
  }

  /** The EMA columns of row `k`: they depend on the bars up to row `k`
      and on no later one. */
  function RowAt(ribbon: Ribbon, bars: seq<Bar>, ema: EmaFn, k: nat): (r: EmaRow)
    requires k < |bars|
    ensures var c := Closes(bars[..k + 1]);
            r == EmaRow(ema(c, ribbon.fastEma), ema(c, ribbon.pivotEma), ema(c, ribbon.slowEma),
                        ema(c, ribbon.fastConvictionEma), ema(c, ribbon.slowConvictionEma))
  {
    assert Closes(bars)[..k + 1] == Closes(bars[..k + 1]);
    var c := Closes(bars)[..k + 1];
    EmaRow(ema(c, ribbon.fastEma), ema(c, ribbon.pivotEma), ema(c, ribbon.slowEma),
           ema(c, ribbon.fastConvictionEma), ema(c, ribbon.slowConvictionEma))
  }

  /** `cache.get(key, None)`. */
  function Get(cache: SignalState, key: string): (v: Option<string>)
    ensures key !in cache ==> v == None
    ensures key in cache ==> v == cache[key]
  {
    if key in cache then cache[key] else None
  }

  // ---------------------------------------------------------------------
  // compute

  /** The pivot state of the latest row given the persisted one. */
  function ClassifyPivot(prior: Option<string>, e: EmaRow): (s: Option<string>)
    ensures e.fast >= e.pivot && e.pivot >= e.slow ==> s == Some(BullishCloud)
    ensures e.fast < e.pivot && e.pivot <= e.slow ==> s == Some(BearishCloud)
    ensures (e.fast >= e.pivot && e.pivot < e.slow) || (e.fast < e.pivot && e.pivot > e.slow)
            ==> s == prior
  {
    if e.fast >= e.pivot && e.pivot >= e.slow then Some(BullishCloud)
    else if e.fast < e.pivot && e.pivot <= e.slow then Some(BearishCloud)
    else prior
  }

  /** The conviction state of the latest row given the persisted one. */
  function ClassifyConviction(prior: Option<string>, e: EmaRow): (s: Option<string>)
    ensures e.fastConviction > e.slowConviction ==> s == Some(Bullish)
    ensures e.fastConviction < e.slowConviction ==> s == Some(Bearish)
    ensures e.fastConviction == e.slowConviction ==> s == prior
  {
    if e.fastConviction > e.slowConviction then Some(Bullish)
    else if e.fastConviction < e.slowConviction then Some(Bearish)
    else prior
  }

  /** Classifying again from the state just computed changes nothing. */
  lemma ClassifyIsIdempotent(prior: Option<string>, e: EmaRow)
    ensures ClassifyPivot(ClassifyPivot(prior, e), e) == ClassifyPivot(prior, e)
    ensures ClassifyConviction(ClassifyConviction(prior, e), e) == ClassifyConviction(prior, e)
  {
  }

  datatype Sentiment = Buy | Sell

  /** The facts the alert text is made of (the text itself is not modelled). */
  datatype Alert = Alert(symbol: string, price: real, time: int, sentiment: Sentiment,
                         pivotState: Option<string>, convictionState: Option<string>)

  /** The dictionary `compute` returns. */
  datatype SignalRecord = SignalRecord(signal: bool, name: string, symbol: string,
                                       kind: Option<Sentiment>, price: Option<real>,
                                       timestamp: Option<int>, message: Option<Alert>)

  /** What `compute` returns and the state it writes (`None`: no write),
      given the cached state for this signal and the latest row. */
  function Decide(symbol: string, cache: SignalState, e: EmaRow, last: Bar)
    : (out: (SignalRecord, Option<SignalState>))
    ensures var pivot := ClassifyPivot(Get(cache, PivotKey), e);
            var conviction := ClassifyConviction(Get(cache, ConvictionKey), e);
            && out.0.name == SignalName && out.0.symbol == symbol
            && (out.0.signal <==> pivot != Get(cache, PivotKey) || conviction != Get(cache, ConvictionKey))
            && (out.0.signal ==>
                  && out.1 == Some(cache[PivotKey := pivot][ConvictionKey := conviction])
                  && out.0.kind == Some(if pivot == Some(BullishCloud) then Buy else Sell)
                  && out.0.price == Some(last.close) && out.0.timestamp == Some(last.time)
                  && out.0.message == Some(Alert(symbol, last.close, last.time,
                                                 if pivot == Some(BullishCloud) then Buy else Sell,
                                                 pivot, conviction)))
            && (!out.0.signal ==>
                  && out.1 == None
                  && out.0.kind == None && out.0.price == None
                  && out.0.timestamp == None && out.0.message == None)
  {
    var pivotLast := Get(cache, PivotKey);
    var convictionLast := Get(cache, ConvictionKey);
    var pivot := ClassifyPivot(pivotLast, e);
    var conviction := ClassifyConviction(convictionLast, e);
    if pivotLast != pivot || convictionLast != conviction then
      var sentiment := if pivot == Some(BullishCloud) then Buy else Sell;
      (SignalRecord(true, SignalName, symbol, Some(sentiment), Some(last.close), Some(last.time),
                    Some(Alert(symbol, last.close, last.time, sentiment, pivot, conviction))),
       Some(cache[PivotKey := pivot][ConvictionKey := conviction]))
    else
      (SignalRecord(false, SignalName, symbol, None, None, None, None), None)
  }

  /** `compute` either raises (an empty series has no `iloc[-1]`) or returns a record. */
  datatype ComputeOutcome = Raised | Returned(record: SignalRecord)

  /** What `compute` does to the symbol's cache file and what it yields. The
      cache is read before the last row is taken, so even a call that raises
      creates a missing file. */
  function ComputeOnFile(ribbon: Ribbon, f: CacheFile, symbol: string, bars: seq<Bar>, ema: EmaFn)
    : (out: (ComputeOutcome, CacheFile))
    ensures out.0.Raised? <==> bars == []
    ensures bars != [] ==>
              out.0 == Returned(Decide(symbol, Lookup(f, SignalName), RowAt(ribbon, bars, ema, |bars| - 1), bars[|bars| - 1]).0)
    ensures out.0.Raised? ==> out.1 == AfterRead(f, map[])
    ensures out.0.Returned? && !out.0.record.signal ==> out.1 == AfterRead(f, map[])
    ensures out.0.Returned? && out.0.record.signal ==>
              out.1 == Written(AfterRead(f, map[]), SignalName, Lookup(f, SignalName)
                [PivotKey := ClassifyPivot(Get(Lookup(f, SignalName), PivotKey), RowAt(ribbon, bars, ema, |bars| - 1))]
                [ConvictionKey := ClassifyConviction(Get(Lookup(f, SignalName), ConvictionKey), RowAt(ribbon, bars, ema, |bars| - 1))])
    ensures forall n :: n != SignalName ==> Lookup(out.1, n) == Lookup(f, n)
  {
    var read := AfterRead(f, map[]);
    if bars == [] then (Raised, read)
    else
      var (record, write) := Decide(symbol, Lookup(f, SignalName), RowAt(ribbon, bars, ema, |bars| - 1), bars[|bars| - 1]);
      match write
      case None => (Returned(record), read)
      case Some(state) => (Returned(record), Written(read, SignalName, state))
  }

  /** `compute(ticker)` for the series `bars` of `symbol`. */
  method Compute(ribbon: Ribbon, cache: SignalCache, symbol: string, bars: seq<Bar>, ema: EmaFn)
    returns (outcome: ComputeOutcome)
    modifies cache
    ensures (outcome, cache.File(symbol)) == ComputeOnFile(ribbon, old(cache.File(symbol)), symbol, bars, ema)
    ensures cache.files == old(cache.files)[symbol := ComputeOnFile(ribbon, old(cache.File(symbol)), symbol, bars, ema).1]
  {
    ghost var before := cache.File(symbol);
    var state := cache.ReadCache(symbol, SignalName);
    if bars == [] {
      return Raised;
    }
    var row := RowAt(ribbon, bars, ema, |bars| - 1);
    var pivotLast := Get(state, PivotKey);
    var convictionLast := Get(state, ConvictionKey);
    var pivot := ClassifyPivot(pivotLast, row);
    var conviction := ClassifyConviction(convictionLast, row);
    var last := bars[|bars| - 1];
    if pivotLast != pivot || convictionLast != conviction {
      state := state[PivotKey := pivot][ConvictionKey := conviction];
      cache.WriteCache(symbol, SignalName, state);
      var sentiment := if pivot == Some(BullishCloud) then Buy else Sell;
      outcome := Returned(SignalRecord(true, SignalName, symbol, Some(sentiment), Some(last.close), Some(last.time),
                                       Some(Alert(symbol, last.close, last.time, sentiment, pivot, conviction))));
    } else {
      outcome := Returned(SignalRecord(false, SignalName, symbol, None, None, None, None));
    }
  }

  /** Running `compute` a second time on the same series reports no signal
      and leaves the cache file as the first run left it. */
  lemma ComputeTwiceIsQuiet(ribbon: Ribbon, f: CacheFile, symbol: string, bars: seq<Bar>, ema: EmaFn)
    requires bars != []
    ensures var (_, f1) := ComputeOnFile(ribbon, f, symbol, bars, ema);
            var (second, f2) := ComputeOnFile(ribbon, f1, symbol, bars, ema);
            second == Returned(SignalRecord(false, SignalName, symbol, None, None, None, None)) && f2 == f1
  {
    var e := RowAt(ribbon, bars, ema, |bars| - 1);
    ClassifyIsIdempotent(Get(Lookup(f, SignalName), PivotKey), e);
    ClassifyIsIdempotent(Get(Lookup(f, SignalName), ConvictionKey), e);
  }

  /** With no persisted state, the first call fires iff either dimension is
      classified; when both fall in their undecided zones nothing fires and
      nothing is written. */
  lemma ColdStart(symbol: string, e: EmaRow, last: Bar)
    ensures var (record, write) := Decide(symbol, map[], e, last);
            && (record.signal <==> ClassifyPivot(None, e).Some? || ClassifyConviction(None, e).Some?)
            && (!record.signal ==> write == None)
  {
  }

  /** A rising ribbon, fast > pivot > slow, with nothing stored is a Buy. */
  lemma ColdStartRisingRibbonBuys(symbol: string, e: EmaRow, last: Bar)
    requires e.fast > e.pivot > e.slow
    ensures Decide(symbol, map[], e, last).0.signal
    ensures Decide(symbol, map[], e, last).0.kind == Some(Buy)
  {
  }

  /** A stored `bullish_cloud` survives a row in the gap where fast >= pivot < slow,
      and with an unchanged conviction nothing fires. */
  lemma GapCarriesBullishCloud(symbol: string, cache: SignalState, e: EmaRow, last: Bar)
    requires Get(cache, PivotKey) == Some(BullishCloud)
    requires e.fast >= e.pivot && e.pivot < e.slow
    requires ClassifyConviction(Get(cache, ConvictionKey), e) == Get(cache, ConvictionKey)
    ensures !Decide(symbol, cache, e, last).0.signal
    ensures Decide(symbol, cache, e, last).1 == None
  {
  }

  /** A conviction-only change with no pivot state yet is reported as a Sell. */
  lemma ConvictionOnlyChangeIsSell(symbol: string, e: EmaRow, last: Bar)
    requires e.fast >= e.pivot && e.pivot < e.slow
    requires e.fastConviction != e.slowConviction
    ensures Decide(symbol, map[], e, last).0.signal
    ensures Decide(symbol, map[], e, last).0.kind == Some(Sell)
  {
  }

  // ---------------------------------------------------------------------
  // compute_and_plot: transition markers over the last 80 rows

  datatype Trend = Up | Down

  /** A chart annotation: row of the window and the direction it marks. */
  datatype Marker = Marker(row: nat, trend: Trend)

  /** The chart scan's pivot classification: note the strict `pivot < slow`
      for bearish, where `compute` uses `<=`. */
  function ChartPivot(e: EmaRow): (t: Option<Trend>)
    ensures t == Some(Up) <==> e.fast >= e.pivot && e.pivot >= e.slow
    ensures t == Some(Down) <==> e.fast < e.pivot && e.pivot < e.slow
  {
    if e.fast >= e.pivot && e.pivot >= e.slow then Some(Up)
    else if e.fast < e.pivot && e.pivot < e.slow then Some(Down)
    else None
  }

  /** The chart scan's conviction classification. */
  function ChartConviction(e: EmaRow): (t: Option<Trend>)
    ensures t == Some(Up) <==> e.fastConviction > e.slowConviction
    ensures t == Some(Down) <==> e.fastConviction < e.slowConviction
  {
    if e.fastConviction > e.slowConviction then Some(Up)
    else if e.fastConviction < e.slowConviction then Some(Down)
    else None
  }

  /** The trend of the last marker placed before row `k`. */
  function TrendBefore(marks: seq<Marker>, k: nat): Option<Trend> {
    if marks == [] then None
    else if marks[|marks| - 1].row < k then Some(marks[|marks| - 1].trend)
    else TrendBefore(marks[..|marks| - 1], k)
  }

  /** The rows that carry a marker. */
  function MarkedRows(marks: seq<Marker>): set<nat> {
    if marks == [] then {} else MarkedRows(marks[..|marks| - 1]) + {marks[|marks| - 1].row}
  }

  /** `marks` are the annotations a scan over rows classified as `rows`
      places: in row order, each on a classified row, alternating in
      direction, and a row is marked exactly when its class differs from the
      last marker before it. */
  ghost predicate MarksTransitions(rows: seq<Option<Trend>>, marks: seq<Marker>) {
    && (forall j :: 0 <= j < |marks| ==> marks[j].row < |rows| && rows[marks[j].row] == Some(marks[j].trend))
    && (forall j :: 0 <= j < |marks| - 1 ==> marks[j].row < marks[j + 1].row)
    && (forall j :: 0 <= j < |marks| - 1 ==> marks[j].trend != marks[j + 1].trend)
    && (forall k :: 0 <= k < |rows| ==>
          (k in MarkedRows(marks) <==> rows[k].Some? && rows[k] != TrendBefore(marks, k)))
  }

  /** The scan has handled rows `0 .. i-1`. */
  ghost predicate ScannedUpTo(rows: seq<Option<Trend>>, marks: seq<Marker>, i: nat) {
    && i <= |rows|
    && (forall j :: 0 <= j < |marks| ==> marks[j].row < i && rows[marks[j].row] == Some(marks[j].trend))
    && (forall j :: 0 <= j < |marks| - 1 ==> marks[j].row < marks[j + 1].row)
    && (forall j :: 0 <= j < |marks| - 1 ==> marks[j].trend != marks[j + 1].trend)
    && (forall k :: 0 <= k < i ==>
          (k in MarkedRows(marks) <==> rows[k].Some? && rows[k] != TrendBefore(marks, k)))
  }

  lemma {:induction false} MarkedRowsBelow(marks: seq<Marker>, i: nat)
    requires forall j :: 0 <= j < |marks| ==> marks[j].row < i
    ensures i !in MarkedRows(marks)
  {
    if marks != [] {
      MarkedRowsBelow(marks[..|marks| - 1], i);
    }
  }

  /** Marking row `i` keeps the scan's invariant. */
  lemma ScanMark(rows: seq<Option<Trend>>, marks: seq<Marker>, i: nat)
    requires ScannedUpTo(rows, marks, i) && i < |rows|
    requires rows[i].Some? && rows[i] != (if marks == [] then None else Some(marks[|marks| - 1].trend))
    ensures ScannedUpTo(rows, marks + [Marker(i, rows[i].value)], i + 1)
  {
    var m := Marker(i, rows[i].value);
    var marks' := marks + [m];
    assert marks'[..|marks|] == marks;
    assert MarkedRows(marks') == MarkedRows(marks) + {i};
    TrendBeforeLast(marks, i);
    forall k | 0 <= k <= i
      ensures TrendBefore(marks', k) == TrendBefore(marks, k)
    {
      TrendBeforeAppend(marks, m, k);
    }
    MarkedRowsBelow(marks, i);
  }

  /** Passing over row `i` keeps the scan's invariant. */
  lemma ScanSkip(rows: seq<Option<Trend>>, marks: seq<Marker>, i: nat)
    requires ScannedUpTo(rows, marks, i) && i < |rows|
    requires !(rows[i].Some? && rows[i] != (if marks == [] then None else Some(marks[|marks| - 1].trend)))
    ensures ScannedUpTo(rows, marks, i + 1)
  {
    TrendBeforeLast(marks, i);
    MarkedRowsBelow(marks, i);
  }

  lemma TrendBeforeAppend(marks: seq<Marker>, m: Marker, k: nat)
    requires m.row >= k
    ensures TrendBefore(marks + [m], k) == TrendBefore(marks, k)
  {
    assert (marks + [m])[..|marks|] == marks;
  }

  lemma {:induction false} TrendBeforeLast(marks: seq<Marker>, k: nat)
    requires forall j :: 0 <= j < |marks| ==> marks[j].row < k
    ensures TrendBefore(marks, k) == if marks == [] then None else Some(marks[|marks| - 1].trend)
  {
  }

  /** One annotation loop: walk the rows keeping the last marked state, and
      mark a row whose class is set and differs from it. */
  method Annotate(rows: seq<Option<Trend>>) returns (marks: seq<Marker>)
    ensures MarksTransitions(rows, marks)
  {
    marks := [];
    var lastState: Option<Trend> := None;
    var i := 0;
    while i < |rows|
      invariant ScannedUpTo(rows, marks, i)
      invariant lastState == if marks == [] then None else Some(marks[|marks| - 1].trend)
    {
      if rows[i].Some? && rows[i] != lastState {
        ScanMark(rows, marks, i);
        marks := marks + [Marker(i, rows[i].value)];
        lastState := rows[i];
      } else {
        ScanSkip(rows, marks, i);
      }
      i := i + 1;
    }
  }

  /** The markers of the chart `compute_and_plot` draws; the drawing and the
      PNG buffer are not modelled. */
  datatype Chart = Chart(rows: nat, pivotMarks: seq<Marker>, convictionMarks: seq<Marker>)

  /** The first row of the chart window. */
  function WindowStart(n: nat): (s: nat)
    ensures s <= n && n - s == if n < ChartRows then n else ChartRows
  {
    if n < ChartRows then 0 else n - ChartRows
  }

  /** `compute_and_plot(ticker)`: EMAs over the whole series, then the two
      annotation loops over the last (at most) 80 rows, re-indexed from 0.
      It takes no cache: the markers depend on the series alone. */
  method ComputeAndPlot(ribbon: Ribbon, bars: seq<Bar>, ema: EmaFn) returns (chart: Chart)
    ensures chart.rows == |bars| - WindowStart(|bars|)
    ensures chart.rows <= ChartRows
    ensures MarksTransitions(
              seq(chart.rows, k requires 0 <= k < chart.rows =>
                    ChartPivot(RowAt(ribbon, bars, ema, WindowStart(|bars|) + k))),
              chart.pivotMarks)
    ensures MarksTransitions(
              seq(chart.rows, k requires 0 <= k < chart.rows =>
                    ChartConviction(RowAt(ribbon, bars, ema, WindowStart(|bars|) + k))),
              chart.convictionMarks)
  {
    var start := WindowStart(|bars|);
    var n := |bars| - start;
    var pivotRows := seq(n, k requires 0 <= k < n => ChartPivot(RowAt(ribbon, bars, ema, start + k)));
    var convictionRows := seq(n, k requires 0 <= k < n => ChartConviction(RowAt(ribbon, bars, ema, start + k)));
    var pivotMarks := Annotate(pivotRows);
    var convictionMarks := Annotate(convictionRows);
    chart := Chart(n, pivotMarks, convictionMarks);
  }
}
