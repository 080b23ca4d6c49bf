/** The `GenerateIndicator` flow: `execute_gi` syncs the registry, works out
    the download window, and for each ticker fetches its series and runs every
    signal on it, plotting and publishing raised signals. Any exception inside
    one ticker's work is caught and the sweep moves on to the next ticker.
    `add_symbol`/`remove_symbol` hand over to the registry's lazy commands. */
module Flow {
  import opened Common
  import opened Dates
  import opened Signals
  import opened Tickers
  import opened PivotRibbon

  /** `timedelta` accepts at most this many days either way. */
  const MaxDeltaDays: int := 999999999

  /** The arguments of the download: dates as `YYYY-MM-DD` and the interval
      as `<minutes>m`. */
  datatype Window = Window(start: string, end: string, interval: string)

  /** One `yf.download` call. */
  datatype Request = Request(symbol: string, window: Window)

  /** What a download gives: a series, or an exception. */
  datatype Fetch = Fetched(bars: seq<Bar>) | FetchFailed

  /** Everything the sweep depends on from outside: the market data source,
      the EMA numerics, whether plotting raises for a symbol, and the
      publisher (`None`: no `publish_signal_func`; `Some(raises)`: the
      callback, raising for the symbols `raises` names). */
  datatype World = World(fetch: Request -> Fetch, ema: EmaFn,
                         plotRaises: string -> bool, publisher: Option<string -> bool>)

  /** What the sweep does, in order. `Computed` marks every record
      `compute` returns, firing or not; only the firing ones are printed. */
  datatype Event =
    | Requested(request: Request)
    | Computed(symbol: string, record: SignalRecord)
    | Plotted(symbol: string)
    | Published(symbol: string, record: SignalRecord)
    | Caught(symbol: string)

  /** The downloads among `events`, in order. */
  function Requests(events: seq<Event>): (r: seq<Request>)
    ensures |r| <= |events|
    decreases |events|
  {
    if events == [] then []
    else (if events[0].Requested? then [events[0].request] else []) + Requests(events[1..])
  }

  lemma {:induction false} RequestsAppend(a: seq<Event>, b: seq<Event>)
    ensures Requests(a + b) == Requests(a) + Requests(b)
    decreases |a|
  {
    if a != [] {
      assert (a + b)[1..] == a[1..] + b;
      RequestsAppend(a[1..], b);
    } else {
      assert a + b == b;
    }
  }

  lemma {:induction false} NoRequests(events: seq<Event>)
    requires forall i :: 0 <= i < |events| ==> !events[i].Requested?
    ensures Requests(events) == []
    decreases |events|
  {
    if events != [] {
      NoRequests(events[1..]);
    }
  }

  /** The download window for `today`, or `None` when `timedelta` or the
      date arithmetic raises `OverflowError` (which `execute_gi` does not
      catch). */
  function SweepWindow(today: Date, rangeDays: int, intervalMinutes: int): (w: Option<Window>)
    requires ValidDate(today)
    ensures w.Some? <==> -MaxDeltaDays <= rangeDays <= MaxDeltaDays
                         && AddDays(today, -rangeDays).Some? && AddDays(today, 1).Some?
    ensures w.Some? ==> ParseYmd(w.value.start) == AddDays(today, -rangeDays)
                        && ParseYmd(w.value.end) == AddDays(today, 1)
                        && DaysBetween(ParseYmd(w.value.start).value, ParseYmd(w.value.end).value) == rangeDays + 1
    ensures w.Some? ==> |w.value.interval| >= 2 && w.value.interval[|w.value.interval| - 1] == 'm'
                        && w.value.interval[..|w.value.interval| - 1] == IntToDecimal(intervalMinutes)
  {
    if !(-MaxDeltaDays <= rangeDays <= MaxDeltaDays) then None
    else match (AddDays(today, -rangeDays), AddDays(today, 1))
      case (Some(start), Some(end)) =>
        FormatParseRoundTrip(start);
        FormatParseRoundTrip(end);
        var interval := IntToDecimal(intervalMinutes) + "m";
        assert interval[..|interval| - 1] == IntToDecimal(intervalMinutes);
        Some(Window(FormatYmd(start), FormatYmd(end), interval))
      case _ => None
  }

  /** One signal's turn on one ticker: the events, the symbol's cache file
      afterwards, and whether an exception ended the ticker's turn. */
  datatype Turn = Turn(events: seq<Event>, file: CacheFile, raised: bool)

  function SignalTurn(ribbon: Ribbon, f: CacheFile, symbol: string, bars: seq<Bar>, world: World): (t: Turn)
  {
    var (outcome, g) := ComputeOnFile(ribbon, f, symbol, bars, world.ema);
    match outcome
    case Raised => Turn([Caught(symbol)], g, true)
    case Returned(r) =>
      if !r.signal then Turn([Computed(symbol, r)], g, false)
      else if world.plotRaises(symbol) then Turn([Computed(symbol, r), Caught(symbol)], g, true)
      else match world.publisher
        case None => Turn([Computed(symbol, r), Plotted(symbol)], g, false)
        case Some(raises) =>
          if raises(symbol) then Turn([Computed(symbol, r), Plotted(symbol), Caught(symbol)], g, true)
          else Turn([Computed(symbol, r), Plotted(symbol), Published(symbol, r)], g, false)
  }

  /** What one signal's turn leaves and when it ends the ticker's turn: the
      file is the one `compute` leaves, and the turn raises iff `compute`
      raises, or it fires and plotting or the publisher raises. */
  lemma SignalTurnSpec(ribbon: Ribbon, f: CacheFile, symbol: string, bars: seq<Bar>, world: World)
    ensures var t := SignalTurn(ribbon, f, symbol, bars, world);
            var (outcome, g) := ComputeOnFile(ribbon, f, symbol, bars, world.ema);
            && t.file == g
            && (t.raised <==> match outcome
                              case Raised => true
                              case Returned(r) => r.signal && (world.plotRaises(symbol)
                                                               || (world.publisher.Some? && world.publisher.value(symbol))))
            && (outcome.Returned? ==> t.events[0] == Computed(symbol, outcome.record))
  {
  }

  /** When one signal's turn awaits the publisher: `compute` returned a
      firing record, plotting did not raise, and there is a publisher that
      does not raise. */
  lemma SignalTurnPublishes(ribbon: Ribbon, f: CacheFile, symbol: string, bars: seq<Bar>, world: World, r: SignalRecord)
    ensures var t := SignalTurn(ribbon, f, symbol, bars, world);
            var outcome := ComputeOnFile(ribbon, f, symbol, bars, world.ema).0;
            Published(symbol, r) in t.events
            <==> outcome == Returned(r) && r.signal && !world.plotRaises(symbol)
                 && world.publisher.Some? && !world.publisher.value(symbol)
  {
  }

  /** An exception is recorded iff the turn raised, and it is the turn's
      last event. */
  lemma SignalTurnCaughtLast(ribbon: Ribbon, f: CacheFile, symbol: string, bars: seq<Bar>, world: World)
    ensures var t := SignalTurn(ribbon, f, symbol, bars, world);
            && (Caught(symbol) in t.events <==> t.raised)
            && (t.raised ==> t.events[|t.events| - 1] == Caught(symbol))
            && (forall i :: 0 <= i < |t.events| && t.events[i].Caught? ==> t.raised && i == |t.events| - 1)
  {
  }

  /** No event follows a `Caught` one. */
  predicate EndsAtCaught(events: seq<Event>) {
    forall i :: 0 <= i < |events| && events[i].Caught? ==> i == |events| - 1
  }

  lemma CaughtFreeThen(first: seq<Event>, rest: seq<Event>)
    requires forall i :: 0 <= i < |first| ==> !first[i].Caught?
    requires EndsAtCaught(rest)
    ensures EndsAtCaught(first + rest)
  {
    forall i | 0 <= i < |first + rest| && (first + rest)[i].Caught?
      ensures i == |first + rest| - 1
    {
      if i >= |first| {
        assert (first + rest)[i] == rest[i - |first|];
      }
    }
  }

  /** A signal that raises ends the ticker's signal loop: no event follows
      the first `Caught`. */
  lemma {:induction false} SignalsTurnStopsAtCaught(signals: seq<Ribbon>, k: nat, f: CacheFile, symbol: string,
                                                    bars: seq<Bar>, world: World)
    ensures EndsAtCaught(SignalsTurn(signals, k, f, symbol, bars, world).0)
    decreases |signals| - k
  {
    if k < |signals| {
      var t := SignalTurn(signals[k], f, symbol, bars, world);
      SignalTurnCaughtLast(signals[k], f, symbol, bars, world);
      if !t.raised {
        var rest := SignalsTurn(signals, k + 1, t.file, symbol, bars, world).0;
        assert SignalsTurn(signals, k, f, symbol, bars, world).0 == t.events + rest;
        SignalsTurnStopsAtCaught(signals, k + 1, t.file, symbol, bars, world);
        CaughtFreeThen(t.events, rest);
      }
    }
  }

  /** A signal's turn downloads nothing. */
  lemma SignalTurnRequestsNothing(ribbon: Ribbon, f: CacheFile, symbol: string, bars: seq<Bar>, world: World)
    ensures Requests(SignalTurn(ribbon, f, symbol, bars, world).events) == []
  {
    NoRequests(SignalTurn(ribbon, f, symbol, bars, world).events);
  }

  /** The signal loop for one ticker from the `k`-th signal on: signals
      run in order until one raises. */
  function SignalsTurn(signals: seq<Ribbon>, k: nat, f: CacheFile, symbol: string, bars: seq<Bar>, world: World)
    : (r: (seq<Event>, CacheFile))
    ensures Requests(r.0) == []
    decreases |signals| - k
  {
    if k >= |signals| then ([], f)
    else
      var t := SignalTurn(signals[k], f, symbol, bars, world);
      SignalTurnRequestsNothing(signals[k], f, symbol, bars, world);
      if t.raised then (t.events, t.file)
      else
        var (rest, g) := SignalsTurn(signals, k + 1, t.file, symbol, bars, world);
        RequestsAppend(t.events, rest);
        (t.events + rest, g)
  }

  /** The turns of the signals from the `k`-th on, each run on the file the
      previous one left, as if none raised. */
  function AllTurns(signals: seq<Ribbon>, k: nat, f: CacheFile, symbol: string, bars: seq<Bar>, world: World)
    : (ts: seq<Turn>)
    decreases |signals| - k
  {
    if k >= |signals| then []
    else
      var t := SignalTurn(signals[k], f, symbol, bars, world);
      [t] + AllTurns(signals, k + 1, t.file, symbol, bars, world)
  }

  /** The events of `ts`, one turn after the other. */
  function EventsOf(ts: seq<Turn>): seq<Event>
    decreases |ts|
  {
    if ts == [] then [] else ts[0].events + EventsOf(ts[1..])
  }

  /** While no signal raises, the loop runs every signal in `Signal_List`
      order, each on the file the previous one left: its events are those
      of all the turns, one after the other, and it leaves the file the
      last turn left. */
  lemma {:induction false} SignalsTurnRunsAllInOrder(signals: seq<Ribbon>, k: nat, f: CacheFile, symbol: string,
                                                     bars: seq<Bar>, world: World)
    requires forall i :: 0 <= i < |AllTurns(signals, k, f, symbol, bars, world)| ==>
               !AllTurns(signals, k, f, symbol, bars, world)[i].raised
    ensures var ts := AllTurns(signals, k, f, symbol, bars, world);
            SignalsTurn(signals, k, f, symbol, bars, world)
            == (EventsOf(ts), if ts == [] then f else ts[|ts| - 1].file)
    decreases |signals| - k
  {
    if k < |signals| {
      var t := SignalTurn(signals[k], f, symbol, bars, world);
      var ts := AllTurns(signals, k, f, symbol, bars, world);
      var tail := AllTurns(signals, k + 1, t.file, symbol, bars, world);
      assert ts == [t] + tail;
      assert ts[1..] == tail;
      assert !ts[0].raised;
      forall i | 0 <= i < |tail|
        ensures !tail[i].raised
      {
        assert tail[i] == ts[i + 1];
      }
      SignalsTurnRunsAllInOrder(signals, k + 1, t.file, symbol, bars, world);
    }
  }

  /** One step of the signal loop: the turn of `signals[k]`, then, unless
      it raised, the loop from `k + 1` on the file it left. */
  lemma SignalsLoopStep(signals: seq<Ribbon>, k: nat, prev: CacheFile, cur: CacheFile, done: seq<Event>,
                        turn: seq<Event>, stop: bool, total: (seq<Event>, CacheFile),
                        symbol: string, bars: seq<Bar>, world: World)
    requires k < |signals|
    requires Turn(turn, cur, stop) == SignalTurn(signals[k], prev, symbol, bars, world)
    requires done + SignalsTurn(signals, k, prev, symbol, bars, world).0 == total.0
    requires SignalsTurn(signals, k, prev, symbol, bars, world).1 == total.1
    ensures var rest := SignalsTurn(signals, k + 1, cur, symbol, bars, world);
            if stop then done + turn == total.0 && cur == total.1
            else (done + turn) + rest.0 == total.0 && rest.1 == total.1
  {
    if !stop {
      ConcatAssoc(done, turn, SignalsTurn(signals, k + 1, cur, symbol, bars, world).0);
    }
  }

  /** One ticker's turn of the sweep. */
  function TickerTurn(signals: seq<Ribbon>, f: CacheFile, symbol: string, w: Window, world: World)
    : (r: (seq<Event>, CacheFile))
    ensures |r.0| >= 1 && r.0[0] == Requested(Request(symbol, w))
    ensures Requests(r.0) == [Request(symbol, w)]
    ensures world.fetch(Request(symbol, w)).FetchFailed? ==> r == ([Requested(Request(symbol, w)), Caught(symbol)], f)
  {
    var request := Request(symbol, w);
    match world.fetch(request)
    case FetchFailed => ([Requested(request), Caught(symbol)], f)
    case Fetched(bars) =>
      var (events, g) := SignalsTurn(signals, 0, f, symbol, bars, world);
      RequestsAppend([Requested(request)], events);
      ([Requested(request)] + events, g)
  }

  /** The store after one ticker's turn: a failed download leaves it alone. */
  function AfterTurn(files: map<string, CacheFile>, signals: seq<Ribbon>, symbol: string, w: Window, world: World)
    : (g: map<string, CacheFile>)
    ensures forall s :: s != symbol ==> FileOf(g, s) == FileOf(files, s)
    ensures FileOf(g, symbol) == TickerTurn(signals, FileOf(files, symbol), symbol, w, world).1
    ensures world.fetch(Request(symbol, w)).FetchFailed? || signals == [] ==> g == files
  {
    if world.fetch(Request(symbol, w)).FetchFailed? || signals == [] then files
    else files[symbol := TickerTurn(signals, FileOf(files, symbol), symbol, w, world).1]
  }

  /** The ticker loop of `execute_gi` over `symbols`, in order. */
  function Sweep(signals: seq<Ribbon>, files: map<string, CacheFile>, symbols: seq<string>, w: Window, world: World)
    : (r: (seq<Event>, map<string, CacheFile>))
    ensures |Requests(r.0)| == |symbols|
    decreases |symbols|
  {
    if symbols == [] then ([], files)
    else
      var (events, _) := TickerTurn(signals, FileOf(files, symbols[0]), symbols[0], w, world);
      var (rest, g) := Sweep(signals, AfterTurn(files, signals, symbols[0], w, world), symbols[1..], w, world);
      RequestsAppend(events, rest);
      (events + rest, g)
  }

  /** A failure on one ticker does not stop the sweep: every ticker's
      download is requested, whatever happens to the others. */
  lemma {:induction false} EveryTickerRequested(signals: seq<Ribbon>, files: map<string, CacheFile>,
                                                symbols: seq<string>, w: Window, world: World)
    ensures forall s :: s in symbols ==> Requested(Request(s, w)) in Sweep(signals, files, symbols, w, world).0
    decreases |symbols|
  {
    if symbols != [] {
      EveryTickerRequested(signals, AfterTurn(files, signals, symbols[0], w, world), symbols[1..], w, world);
    }
  }

  /** The sweep downloads each listed ticker exactly once, in list order. */
  lemma {:induction false} SweepRequestsInOrder(signals: seq<Ribbon>, files: map<string, CacheFile>,
                                                symbols: seq<string>, w: Window, world: World)
    ensures Requests(Sweep(signals, files, symbols, w, world).0)
            == seq(|symbols|, i requires 0 <= i < |symbols| => Request(symbols[i], w))
    decreases |symbols|
  {
    if symbols != [] {
      var next := AfterTurn(files, signals, symbols[0], w, world);
      var events := TickerTurn(signals, FileOf(files, symbols[0]), symbols[0], w, world).0;
      var rest := Sweep(signals, next, symbols[1..], w, world).0;
      SweepRequestsInOrder(signals, next, symbols[1..], w, world);
      RequestsInOrderStep(events, rest, symbols, w);
    }
  }

  /** The downloads of one ticker's turn followed by those of the rest. */
  lemma RequestsInOrderStep(first: seq<Event>, rest: seq<Event>, symbols: seq<string>, w: Window)
    requires symbols != []
    requires Requests(first) == [Request(symbols[0], w)]
    requires Requests(rest) == seq(|symbols| - 1, i requires 0 <= i < |symbols| - 1 => Request(symbols[1..][i], w))
    ensures Requests(first + rest) == seq(|symbols|, i requires 0 <= i < |symbols| => Request(symbols[i], w))
  {
    RequestsAppend(first, rest);
    var wanted := seq(|symbols|, i requires 0 <= i < |symbols| => Request(symbols[i], w));
    assert wanted == [wanted[0]] + wanted[1..];
  }

  /** Tickers are independent: a ticker's file after the sweep is what its
      own turn makes of its own file, and files of unswept symbols are
      untouched. */
  lemma {:induction false} SweepIsolation(signals: seq<Ribbon>, files: map<string, CacheFile>,
                                          symbols: seq<string>, w: Window, world: World, s: string)
    requires NoDuplicates(symbols)
    ensures s !in symbols ==> FileOf(Sweep(signals, files, symbols, w, world).1, s) == FileOf(files, s)
    ensures s in symbols ==>
              FileOf(Sweep(signals, files, symbols, w, world).1, s) == FileOf(AfterTurn(files, signals, s, w, world), s)
    decreases |symbols|
  {
    if symbols != [] {
      var next := AfterTurn(files, signals, symbols[0], w, world);
      assert NoDuplicates(symbols[1..]);
      SweepIsolation(signals, next, symbols[1..], w, world, s);
      if s == symbols[0] {
        assert s !in symbols[1..];
      }
    }
  }

  /** With the one signal `execute_gi` runs, the state written for a ticker
      does not depend on whether plotting or publishing raise. */
  lemma StatePersistsDespiteFailures(ribbon: Ribbon, f: CacheFile, symbol: string, w: Window, a: World, b: World)
    requires a.fetch == b.fetch && a.ema == b.ema
    ensures TickerTurn([ribbon], f, symbol, w, a).1 == TickerTurn([ribbon], f, symbol, w, b).1
  {
    match a.fetch(Request(symbol, w))
    case FetchFailed =>
    case Fetched(bars) =>
      var ta := SignalTurn(ribbon, f, symbol, bars, a);
      var tb := SignalTurn(ribbon, f, symbol, bars, b);
      assert ta.file == tb.file;
      assert SignalsTurn([ribbon], 0, f, symbol, bars, a).1 == ta.file;
      assert SignalsTurn([ribbon], 0, f, symbol, bars, b).1 == tb.file;
  }

  /** One step of the ticker loop: the sweep from position `i` is the turn
      of `symbols[i]` followed by the sweep from `i + 1`. */
  lemma SweepStep(signals: seq<Ribbon>, files: map<string, CacheFile>, symbols: seq<string>, i: nat,
                  w: Window, world: World)
    requires i < |symbols|
    ensures var next := AfterTurn(files, signals, symbols[i], w, world);
            var rest := Sweep(signals, next, symbols[i + 1..], w, world);
            Sweep(signals, files, symbols[i..], w, world)
            == (TickerTurn(signals, FileOf(files, symbols[i]), symbols[i], w, world).0 + rest.0, rest.1)
  {
    assert symbols[i..][1..] == symbols[i + 1..];
  }

  /** The ticker loop's invariant carried over one ticker. */
  lemma SweepLoopStep(signals: seq<Ribbon>, files: map<string, CacheFile>, after: map<string, CacheFile>,
                      symbols: seq<string>, i: nat, done: seq<Event>, turn: seq<Event>,
                      total: (seq<Event>, map<string, CacheFile>), w: Window, world: World)
    requires i < |symbols|
    requires turn == TickerTurn(signals, FileOf(files, symbols[i]), symbols[i], w, world).0
    requires after == AfterTurn(files, signals, symbols[i], w, world)
    requires done + Sweep(signals, files, symbols[i..], w, world).0 == total.0
    requires Sweep(signals, files, symbols[i..], w, world).1 == total.1
    ensures (done + turn) + Sweep(signals, after, symbols[i + 1..], w, world).0 == total.0
    ensures Sweep(signals, after, symbols[i + 1..], w, world).1 == total.1
  {
    SweepStep(signals, files, symbols, i, w, world);
    ConcatAssoc(done, turn, Sweep(signals, after, symbols[i + 1..], w, world).0);
  }

  /** Two stores that agree on every symbol but `symbol`, where `files`
      holds a file for `symbol`: `files` is `before` with that file rewritten. */
  ghost predicate SameElsewhere(files: map<string, CacheFile>, before: map<string, CacheFile>, symbol: string) {
    forall s :: s != symbol ==> (s in files <==> s in before) && (s in files ==> files[s] == before[s])
  }

  lemma RewrittenOnly(files: map<string, CacheFile>, before: map<string, CacheFile>, symbol: string)
    requires symbol in files && SameElsewhere(files, before, symbol)
    ensures files == before[symbol := files[symbol]]
  {
    var rewritten := before[symbol := files[symbol]];
    assert files.Keys == rewritten.Keys;
  }

  /** The handles after the ticker loop has run on `symbols[..i]`: those
      tickers hold what their download gave, the others are untouched. */
  ghost predicate SweptHandles(handles: map<string, Ticker>, before: map<string, Ticker>,
                               symbols: seq<string>, i: nat, w: Window, world: World)
  {
    && i <= |symbols|
    && handles.Keys == before.Keys
    && (forall k :: 0 <= k < i ==> HandleAfterFetch(handles, before, symbols[k], w, world))
    && (forall k :: i <= k < |symbols| ==> symbols[k] in handles && symbols[k] in before
                                           && handles[symbols[k]] == before[symbols[k]])
  }

  lemma SweptHandlesStep(handles: map<string, Ticker>, mid: map<string, Ticker>, before: map<string, Ticker>,
                         symbols: seq<string>, i: nat, w: Window, world: World)
    requires NoDuplicates(symbols) && i < |symbols|
    requires SweptHandles(mid, before, symbols, i, w, world)
    requires handles.Keys == mid.Keys
    requires HandleAfterFetch(handles, mid, symbols[i], w, world)
    requires forall s :: s in handles && s != symbols[i] ==> handles[s] == mid[s]
    ensures SweptHandles(handles, before, symbols, i + 1, w, world)
  {
    forall k | 0 <= k < i
      ensures HandleAfterFetch(handles, before, symbols[k], w, world)
    {
      assert symbols[k] != symbols[i];
    }
    forall k | i + 1 <= k < |symbols|
      ensures handles[symbols[k]] == before[symbols[k]]
    {
      assert symbols[k] != symbols[i];
    }
  }

  class GenerateIndicator {
    const manager: TickerManager
    const cache: SignalCache
    /** `Signal_List`. */
    const signals: seq<Ribbon>
    const rangeDays: int
    const intervalMinutes: int

    /** `__init__(data_range_days, data_interval_minutes)`; the source's
        defaults are 10 and 5. */
    constructor (registry: JsonFile<RegistryRecord>, files: map<string, CacheFile>,
                 dataRangeDays: int, dataIntervalMinutes: int)
      ensures fresh(manager) && fresh(cache)
      ensures manager.registry == AfterRead(registry, map[])
      ensures manager.tickerList == TickerListOf(Parsed(registry, map[]))
      ensures manager.handles == map s | s in manager.tickerList :: Ticker(s, None)
      ensures NoDuplicates(manager.tickerList) ==> manager.Valid()
      ensures cache.files == files
      ensures signals == [DefaultRibbon]
      ensures rangeDays == dataRangeDays && intervalMinutes == dataIntervalMinutes
    {
      manager := new TickerManager(registry);
      cache := new SignalCache(files);
      signals := [DefaultRibbon];
      rangeDays := dataRangeDays;
      intervalMinutes := dataIntervalMinutes;
    }

    /** `execute_gi(publish_signal_func)` on the day `today`. `overflowed`
        reports the `OverflowError` that ends the call after the sync. */
    method ExecuteGi(today: Date, world: World) returns (events: seq<Event>, overflowed: bool)
      requires ValidDate(today) && manager.Valid()
      modifies manager, cache
      ensures manager.Valid()
      ensures manager.registry == AfterRead(old(manager.registry), map[])
      ensures manager.tickerList == Synced(old(manager.tickerList), TickerListOf(Parsed(old(manager.registry), map[])))
      ensures overflowed <==> SweepWindow(today, rangeDays, intervalMinutes).None?
      ensures overflowed ==> events == [] && cache.files == old(cache.files)
      ensures overflowed ==>
                forall s :: s in manager.handles ==>
                  manager.handles[s] == if s in old(manager.handles) then old(manager.handles)[s] else Ticker(s, None)
      ensures !overflowed ==>
                (events, cache.files)
                == Sweep(signals, old(cache.files), manager.tickerList, SweepWindow(today, rangeDays, intervalMinutes).value, world)
      ensures !overflowed ==>
                forall s :: s in manager.handles ==>
                  match world.fetch(Request(s, SweepWindow(today, rangeDays, intervalMinutes).value))
                  case Fetched(bars) => manager.handles[s] == Ticker(s, Some(bars))
                  case FetchFailed => manager.handles[s] == if s in old(manager.handles) then old(manager.handles)[s]
                                                            else Ticker(s, None)
    {
      manager.SyncTickers();
      var window := SweepWindow(today, rangeDays, intervalMinutes);
      if window.None? {
        return [], true;
      }
      events := SweepTickers(window.value, world);
      overflowed := false;
    }

    /** The ticker loop of `execute_gi`: one `try` block per listed ticker,
        in list order (the order of the handle map). */
    method SweepTickers(w: Window, world: World) returns (events: seq<Event>)
      requires manager.Valid()
      modifies manager`handles, cache
      ensures manager.Valid()
      ensures (events, cache.files) == Sweep(signals, old(cache.files), manager.tickerList, w, world)
      ensures manager.handles.Keys == old(manager.handles).Keys
      ensures forall s :: s in manager.handles ==> HandleAfterFetch(manager.handles, old(manager.handles), s, w, world)
    {
      ghost var total := Sweep(signals, cache.files, manager.tickerList, w, world);
      var symbols := manager.tickerList;
      events := [];
      var i := 0;
      while i < |symbols|
        invariant 0 <= i <= |symbols|
        invariant manager.Valid() && manager.tickerList == symbols
        invariant events + Sweep(signals, cache.files, symbols[i..], w, world).0 == total.0
        invariant Sweep(signals, cache.files, symbols[i..], w, world).1 == total.1
        invariant SweptHandles(manager.handles, old(manager.handles), symbols, i, w, world)
      {
        var symbol := symbols[i];
        ghost var handlesBefore := manager.handles;
        ghost var filesBefore := cache.files;
        var turn := RunTicker(symbol, w, world);
        SweepLoopStep(signals, filesBefore, cache.files, symbols, i, events, turn, total, w, world);
        SweptHandlesStep(manager.handles, handlesBefore, old(manager.handles), symbols, i, w, world);
        events := events + turn;
        i := i + 1;
      }
      assert symbols[i..] == [];
      assert events + [] == events;
    }

    /** One ticker's `try` block: download, store the series on the handle,
        then the signal loop; an exception ends the ticker's turn. */
    method RunTicker(symbol: string, w: Window, world: World) returns (events: seq<Event>)
      requires manager.Valid() && symbol in manager.tickerList
      modifies manager`handles, cache
      ensures manager.Valid()
      ensures (events, FileOf(cache.files, symbol)) == TickerTurn(signals, FileOf(old(cache.files), symbol), symbol, w, world)
      ensures cache.files == AfterTurn(old(cache.files), signals, symbol, w, world)
      ensures HandleAfterFetch(manager.handles, old(manager.handles), symbol, w, world)
      ensures forall s :: s in manager.handles && s != symbol ==> manager.handles[s] == old(manager.handles)[s]
      ensures manager.handles.Keys == old(manager.handles).Keys
    {
      var request := Request(symbol, w);
      var fetched := world.fetch(request);
      if fetched.FetchFailed? {
        return [Requested(request), Caught(symbol)];
      }
      var bars := fetched.bars;
      manager.SetHistoricalData(symbol, bars);
      var rest := RunSignals(symbol, bars, world);
      events := [Requested(request)] + rest;
    }

    /** The signal loop of one ticker. */
    method RunSignals(symbol: string, bars: seq<Bar>, world: World) returns (events: seq<Event>)
      modifies cache
      ensures (events, cache.File(symbol)) == SignalsTurn(signals, 0, old(cache.File(symbol)), symbol, bars, world)
      ensures signals != [] ==> cache.files == old(cache.files)[symbol := cache.File(symbol)]
      ensures signals == [] ==> cache.files == old(cache.files)
    {
      ghost var start := cache.files;
      ghost var cur := FileOf(cache.files, symbol);
      ghost var total := SignalsTurn(signals, 0, cur, symbol, bars, world);
      ghost var remaining := total;
      events := [];
      var k := 0;
      var raised := false;
      while k < |signals| && !raised
        invariant 0 <= k <= |signals|
        invariant cur == FileOf(cache.files, symbol)
        invariant k == 0 ==> cache.files == start && !raised
        invariant k > 0 ==> symbol in cache.files
        invariant SameElsewhere(cache.files, start, symbol)
        invariant !raised ==> remaining == SignalsTurn(signals, k, cur, symbol, bars, world)
                              && events + remaining.0 == total.0 && remaining.1 == total.1
        invariant raised ==> events == total.0 && cur == total.1
      {
        ghost var prev := cur;
        var turn, stop := RunSignal(signals[k], symbol, bars, world);
        cur := FileOf(cache.files, symbol);
        SignalsLoopStep(signals, k, prev, cur, events, turn, stop, total, symbol, bars, world);
        remaining := SignalsTurn(signals, k + 1, cur, symbol, bars, world);
        events := events + turn;
        raised := stop;
        k := k + 1;
      }
      if !raised {
        assert events + [] == events;
      }
      if k > 0 {
        RewrittenOnly(cache.files, start, symbol);
      }
    }

    /** One signal on one ticker: `compute`, and for a raised signal
        `compute_and_plot` and the publisher. */
    method RunSignal(ribbon: Ribbon, symbol: string, bars: seq<Bar>, world: World)
      returns (events: seq<Event>, raised: bool)
      modifies cache
      ensures Turn(events, cache.File(symbol), raised) == SignalTurn(ribbon, old(cache.File(symbol)), symbol, bars, world)
      ensures cache.files == old(cache.files)[symbol := cache.File(symbol)]
    {
      var outcome := Compute(ribbon, cache, symbol, bars, world.ema);
      match outcome {
        case Raised =>
          return [Caught(symbol)], true;
        case Returned(r) =>
          if !r.signal {
            return [Computed(symbol, r)], false;
          }
          var chart := ComputeAndPlot(ribbon, bars, world.ema);
          if world.plotRaises(symbol) {
            return [Computed(symbol, r), Caught(symbol)], true;
          }
          match world.publisher {
            case None =>
              return [Computed(symbol, r), Plotted(symbol)], false;
            case Some(raises) =>
              if raises(symbol) {
                return [Computed(symbol, r), Plotted(symbol), Caught(symbol)], true;
              }
              return [Computed(symbol, r), Plotted(symbol), Published(symbol, r)], false;
          }
      }
    }

    /** `add_symbol`. */
    method AddSymbol(symbol: string, isValidSymbol: string -> bool) returns (reply: Reply)
      modifies manager`registry
      ensures symbol in manager.tickerList ==>
                reply == Reply(false, AlreadyPresent) && manager.registry == old(manager.registry)
      ensures symbol !in manager.tickerList && !isValidSymbol(symbol) ==>
                reply == Reply(false, InvalidSymbol) && manager.registry == old(manager.registry)
      ensures symbol !in manager.tickerList && isValidSymbol(symbol) ==>
                reply == Reply(true, Added)
                && manager.registry == LazyAdded(old(manager.registry), manager.tickerList, symbol)
    {
      reply := manager.LazyAddTicker(symbol, isValidSymbol);
    }

    /** `remove_symbol`. */
    method RemoveSymbol(symbol: string) returns (reply: Reply)
      modifies manager`registry
      ensures symbol in manager.tickerList ==>
                reply == Reply(true, Removed)
                && manager.registry == LazyRemoved(old(manager.registry), manager.tickerList, symbol)
      ensures symbol !in manager.tickerList ==>
                reply == Reply(false, NotPresent) && manager.registry == old(manager.registry)
    {
      reply := manager.LazyRemoveTicker(symbol);
    }

    /** `get_all_symbols`: the keys of the handle map, in its insertion
        order, which is the order of the list. */
    function GetAllSymbols(): (symbols: seq<string>)
      reads this, manager
      requires manager.Valid()
      ensures forall s :: s in symbols <==> s in manager.GetAllTickers()
      ensures NoDuplicates(symbols)
      ensures symbols == manager.tickerList
    {
      manager.tickerList
    }
  }

  /** A ticker's handle after its turn: the downloaded series, or the
      handle as it was when the download raised. */
  ghost predicate HandleAfterFetch(handles: map<string, Ticker>, before: map<string, Ticker>,
                                   symbol: string, w: Window, world: World)
  {
    symbol in handles && symbol in before
    && match world.fetch(Request(symbol, w))
       case Fetched(bars) => handles[symbol] == before[symbol].(historicalData := Some(bars))
       case FetchFailed => handles[symbol] == before[symbol]
  }
}
