/** The ticker registry (`TickerManager`): an in-memory symbol list with a
    handle per symbol, and a persisted record `{"ticker_list": [...]}` in
    `.data/1_ticker_manager.json`. `add_ticker`/`remove_ticker` change memory
    only; `lazy_add_ticker`/`lazy_remove_ticker` rewrite the persisted record
    only; `sync_tickers` pulls the persisted list into memory. */
module Tickers {
  import opened Common

  /** One row of a fetched price series: the close price and its time stamp. */
  datatype Bar = Bar(close: real, time: int)

  /** A `Ticker` handle: its symbol and the last fetched series (`None`
      until the first fetch). */
  datatype Ticker = Ticker(symbol: string, historicalData: Option<seq<Bar>>)

  /** A value in the registry record: a list of symbols, or any other JSON
      value, kept as it is. */
  datatype Entry = SymbolList(symbols: seq<string>) | OtherValue(json: string)

  type RegistryRecord = map<string, Entry>

  const TickerListKey: string := "ticker_list"

  /** `all_data.get('ticker_list', [])`. */
  function TickerListOf(record: RegistryRecord): (list: seq<string>)
    ensures TickerListKey !in record ==> list == []
    ensures record[TickerListKey := SymbolList(list)] == record || TickerListKey !in record
            || !record[TickerListKey].SymbolList?
  {
    if TickerListKey in record && record[TickerListKey].SymbolList? then record[TickerListKey].symbols else []
  }

  /** Why a command succeeded or failed (the message text is not modelled). */
  datatype Reason = Added | AlreadyPresent | InvalidSymbol | Removed | NotPresent

  /** The `{"status": ..., "message": ...}` dictionary the commands return. */
  datatype Reply = Reply(status: bool, reason: Reason)

  // ---------------------------------------------------------------------
  // Specification of the persisted-record updates

  /** The registry file after `lazy_add_ticker` writes `symbol`: the record
      read back (empty for a missing or malformed file) with `ticker_list`
      set to the in-memory list plus `symbol`. */
  function LazyAdded(f: JsonFile<RegistryRecord>, inMemory: seq<string>, symbol: string)
    : (g: JsonFile<RegistryRecord>)
    ensures g.Valid? && TickerListOf(g.content) == inMemory + [symbol]
    ensures forall k :: k != TickerListKey && k in Parsed(f, map[]) ==>
              k in g.content && g.content[k] == Parsed(f, map[])[k]
    ensures g.content.Keys == Parsed(f, map[]).Keys + {TickerListKey}
  {
    Valid(Parsed(f, map[])[TickerListKey := SymbolList(inMemory + [symbol])])
  }

  /** The registry file after `lazy_remove_ticker` drops `symbol`. */
  function LazyRemoved(f: JsonFile<RegistryRecord>, inMemory: seq<string>, symbol: string)
    : (g: JsonFile<RegistryRecord>)
    ensures g.Valid? && TickerListOf(g.content) == Without(inMemory, symbol)
    ensures symbol !in TickerListOf(g.content)
    ensures forall k :: k != TickerListKey && k in Parsed(f, map[]) ==>
              k in g.content && g.content[k] == Parsed(f, map[])[k]
    ensures g.content.Keys == Parsed(f, map[]).Keys + {TickerListKey}
  {
    Valid(Parsed(f, map[])[TickerListKey := SymbolList(Without(inMemory, symbol))])
  }

  /** Two `lazy_add_ticker` calls with no sync between them: the second
      record is built from the unchanged in-memory list, so the first
      symbol is lost. */
  lemma SecondLazyAddDropsFirst(f: JsonFile<RegistryRecord>, inMemory: seq<string>, first: string, second: string)
    requires first !in inMemory && first != second
    ensures first !in TickerListOf(LazyAdded(LazyAdded(f, inMemory, first), inMemory, second).content)
  {
  }

  /** The first loop of `sync_tickers`: each persisted symbol not yet
      listed is appended, in persisted order. */
  function AppendNew(list: seq<string>, persisted: seq<string>): (r: seq<string>)
    ensures list <= r
    ensures forall s :: s in r <==> s in list || s in persisted
    ensures NoDuplicates(list) ==> NoDuplicates(r)
    decreases |persisted|
  {
    if persisted == [] then list
    else AppendNew(if persisted[0] in list then list else list + [persisted[0]], persisted[1..])
  }

  /** The persisted symbols that `list` lacks, each at its first occurrence
      in `persisted`, in persisted order. */
  function NewInOrder(list: seq<string>, persisted: seq<string>): (r: seq<string>)
    ensures forall s :: s in r <==> s !in list && s in persisted
    ensures NoDuplicates(r)
    decreases |persisted|
  {
    if persisted == [] then []
    else
      var init, last := persisted[..|persisted| - 1], persisted[|persisted| - 1];
      assert persisted == init + [last];
      NewInOrder(list, init) + (if last in list || last in init then [] else [last])
  }

  /** Appending one more persisted symbol to the first loop's input. */
  lemma {:induction false} AppendNewSnoc(list: seq<string>, persisted: seq<string>, x: string)
    ensures AppendNew(list, persisted + [x])
            == if x in list || x in persisted then AppendNew(list, persisted) else AppendNew(list, persisted) + [x]
    decreases |persisted|
  {
    if persisted == [] {
      assert (persisted + [x])[1..] == [];
    } else {
      var grown := if persisted[0] in list then list else list + [persisted[0]];
      assert (persisted + [x])[1..] == persisted[1..] + [x];
      assert persisted == [persisted[0]] + persisted[1..];
      AppendNewSnoc(grown, persisted[1..], x);
    }
  }

  /** The first loop appends exactly the new symbols, in persisted order. */
  lemma {:induction false} AppendNewInOrder(list: seq<string>, persisted: seq<string>)
    ensures AppendNew(list, persisted) == list + NewInOrder(list, persisted)
    decreases |persisted|
  {
    if persisted != [] {
      var init, last := persisted[..|persisted| - 1], persisted[|persisted| - 1];
      assert persisted == init + [last];
      AppendNewInOrder(list, init);
      AppendNewSnoc(list, init, last);
    }
  }

  /** The second loop of `sync_tickers` from position `i` on, as Python runs
      it: iterating the list while removing from it, so the entry after a
      removed one moves into the slot already visited and is never checked. */
  function RemovalPass(list: seq<string>, persisted: seq<string>, i: nat): (r: seq<string>)
    ensures |r| <= |list|
    decreases |list| + 1 - i
  {
    if i >= |list| then list
    else if list[i] in persisted then RemovalPass(list, persisted, i + 1)
    else RemovalPass(RemoveFirst(list, list[i]), persisted, i + 1)
  }

  lemma {:induction false} RemovalPassKeeps(list: seq<string>, persisted: seq<string>, i: nat)
    ensures forall s :: s in RemovalPass(list, persisted, i) ==> s in list
    ensures forall s :: s in list && s in persisted ==> s in RemovalPass(list, persisted, i)
    ensures NoDuplicates(list) ==> NoDuplicates(RemovalPass(list, persisted, i))
    ensures IsSubsequence(RemovalPass(list, persisted, i), list)
    decreases |list| + 1 - i
  {
    if i >= |list| {
      SubsequenceRefl(list);
    } else if list[i] in persisted {
      RemovalPassKeeps(list, persisted, i + 1);
    } else {
      var shorter := RemoveFirst(list, list[i]);
      RemovalPassKeeps(shorter, persisted, i + 1);
      RemoveFirstIsSubsequence(list, list[i]);
      SubsequenceTrans(RemovalPass(shorter, persisted, i + 1), shorter, list);
    }
  }

  /** `[s for s in list if s in persisted]`: the list a complete removal
      would leave. */
  function Kept(list: seq<string>, persisted: seq<string>): (r: seq<string>)
    ensures forall s :: s in r <==> s in list && s in persisted
  {
    if list == [] then []
    else if list[0] in persisted then [list[0]] + Kept(list[1..], persisted)
    else Kept(list[1..], persisted)
  }

  lemma {:induction false} KeptAppend(a: seq<string>, b: seq<string>, persisted: seq<string>)
    ensures Kept(a + b, persisted) == Kept(a, persisted) + Kept(b, persisted)
  {
    if a != [] {
      assert (a + b)[1..] == a[1..] + b;
      KeptAppend(a[1..], b, persisted);
    } else {
      assert a + b == b;
    }
  }

  lemma {:induction false} RemoveFirstAt(list: seq<string>, i: nat)
    requires NoDuplicates(list) && i < |list|
    ensures RemoveFirst(list, list[i]) == list[..i] + list[i + 1..]
  {
    if i == 0 {
      assert list[..0] + list[1..] == list[1..];
    } else {
      var tail := list[1..];
      assert NoDuplicates(tail) && list[0] != list[i] && tail[i - 1] == list[i] by {
        NoDuplicatesTail(list);
      }
      RemoveFirstAt(tail, i - 1);
      assert RemoveFirst(list, list[i]) == [list[0]] + RemoveFirst(tail, list[i]);
      ConsSlices(list, i);
    }
  }

  /** Putting the head back in front of the tail with its `(i-1)`-th entry
      dropped. */
  lemma ConsSlices(list: seq<string>, i: nat)
    requires 0 < i < |list|
    ensures [list[0]] + (list[1..][..i - 1] + list[1..][i..]) == list[..i] + list[i + 1..]
  {
    assert list[1..][..i - 1] == list[1..i] && list[1..][i..] == list[i + 1..];
    assert [list[0]] + list[1..i] == list[..i];
  }

  lemma {:induction false} KeptCons(x: string, rest: seq<string>, persisted: seq<string>)
    ensures Kept([x] + rest, persisted) == if x in persisted then [x] + Kept(rest, persisted) else Kept(rest, persisted)
  {
    assert ([x] + rest)[1..] == rest;
  }

  /** When no two neighbouring entries are both delisted, the pass does
      remove every delisted entry. */
  lemma {:induction false} RemovalPassComplete(list: seq<string>, persisted: seq<string>, i: nat)
    requires NoDuplicates(list) && i <= |list|
    requires forall k :: i <= k < |list| - 1 ==> list[k] in persisted || list[k + 1] in persisted
    ensures RemovalPass(list, persisted, i) == list[..i] + Kept(list[i..], persisted)
    decreases |list| + 1 - i
  {
    if i == |list| {
      assert list[i..] == [];
      assert list[..i] == list;
    } else if list[i] in persisted {
      RemovalPassComplete(list, persisted, i + 1);
      var rest := Kept(list[i + 1..], persisted);
      assert Kept(list[i..], persisted) == [list[i]] + rest by {
        assert list[i..] == [list[i]] + list[i + 1..];
        KeptCons(list[i], list[i + 1..], persisted);
      }
      assert list[..i + 1] == list[..i] + [list[i]];
      ConcatAssoc(list[..i], [list[i]], rest);
    } else {
      RemovalPassSkip(list, persisted, i);
      assert Kept(list[i..], persisted) == Kept(list[i + 1..], persisted) by {
        assert list[i..] == [list[i]] + list[i + 1..];
        KeptCons(list[i], list[i + 1..], persisted);
      }
    }
  }

  /** The step of `RemovalPassComplete` that removes `list[i]` and skips its
      successor, which is kept. */
  lemma {:induction false} RemovalPassSkip(list: seq<string>, persisted: seq<string>, i: nat)
    requires NoDuplicates(list) && i < |list| && list[i] !in persisted
    requires forall k :: i <= k < |list| - 1 ==> list[k] in persisted || list[k + 1] in persisted
    ensures RemovalPass(list, persisted, i) == list[..i] + Kept(list[i + 1..], persisted)
    decreases |list| - i, 0
  {
    var shorter := list[..i] + list[i + 1..];
    assert RemovalPass(list, persisted, i) == RemovalPass(shorter, persisted, i + 1) by {
      RemoveFirstAt(list, i);
    }
    if i + 1 < |list| {
      var rest := Kept(list[i + 2..], persisted);
      assert RemovalPass(shorter, persisted, i + 1) == (list[..i] + [list[i + 1]]) + rest by {
        DropOneSpaced(list, persisted, i);
        RemovalPassComplete(shorter, persisted, i + 1);
        DropOneSlices(list, i);
      }
      assert Kept(list[i + 1..], persisted) == [list[i + 1]] + rest by {
        assert list[i + 1..] == [list[i + 1]] + list[i + 2..];
        KeptCons(list[i + 1], list[i + 2..], persisted);
      }
      ConcatAssoc(list[..i], [list[i + 1]], rest);
    } else {
      assert shorter == list[..i];
      assert list[i + 1..] == [];
    }
  }

  /** The two halves of the list once `list[i]` is dropped. */
  lemma DropOneSlices(list: seq<string>, i: nat)
    requires i + 1 < |list|
    ensures var shorter := list[..i] + list[i + 1..];
            shorter[..i + 1] == list[..i] + [list[i + 1]] && shorter[i + 1..] == list[i + 2..]
  {
  }

  /** Dropping `list[i]` keeps the list free of repeats and keeps the
      no-two-delisted-neighbours condition from `i + 1` on. */
  lemma DropOneSpaced(list: seq<string>, persisted: seq<string>, i: nat)
    requires NoDuplicates(list) && i < |list|
    requires forall k :: i <= k < |list| - 1 ==> list[k] in persisted || list[k + 1] in persisted
    ensures var shorter := list[..i] + list[i + 1..];
            NoDuplicates(shorter)
            && forall k :: i + 1 <= k < |shorter| - 1 ==> shorter[k] in persisted || shorter[k + 1] in persisted
  {
    var shorter := list[..i] + list[i + 1..];
    assert forall k :: 0 <= k < i ==> shorter[k] == list[k];
    assert forall k :: i <= k < |shorter| ==> shorter[k] == list[k + 1];
  }

  /** Two delisted symbols side by side: the second one survives the pass. */
  lemma AdjacentDelistedSurvives(a: string, b: string)
    requires a != b
    ensures RemovalPass([a, b], [], 0) == [b]
  {
    assert RemoveFirst([a, b], a) == [b];
  }

  /** `remove_ticker` then `add_ticker` of a listed symbol restores the
      membership of the list; the symbol moves to the end. */
  lemma RemoveThenAddKeepsMembers(list: seq<string>, symbol: string)
    requires NoDuplicates(list) && symbol in list
    ensures var back := RemoveFirst(list, symbol) + [symbol];
            NoDuplicates(back) && (forall s :: s in back <==> s in list) && back[|back| - 1] == symbol
  {
    var back := RemoveFirst(list, symbol) + [symbol];
    assert forall i :: 0 <= i < |back| - 1 ==> back[i] in RemoveFirst(list, symbol);
  }

  /** What `sync_tickers` leaves in memory, from the list it starts with and
      the persisted list. */
  function Synced(list: seq<string>, persisted: seq<string>): (r: seq<string>)
    ensures forall s :: s in persisted ==> s in r
    ensures forall s :: s in r ==> s in list || s in persisted
    ensures NoDuplicates(list) ==> NoDuplicates(r)
  {
    RemovalPassKeeps(AppendNew(list, persisted), persisted, 0);
    RemovalPass(AppendNew(list, persisted), persisted, 0)
  }

  /** When no two neighbouring symbols of the in-memory list are both
      delisted, sync leaves memory listing exactly the persisted symbols. */
  lemma SyncedIsPersistedWhenSpaced(list: seq<string>, persisted: seq<string>)
    requires NoDuplicates(list)
    requires forall k :: 0 <= k < |list| - 1 ==> list[k] in persisted || list[k + 1] in persisted
    ensures forall s :: s in Synced(list, persisted) <==> s in persisted
  {
    var grown := AppendNew(list, persisted);
    assert forall k :: 0 <= k < |list| ==> grown[k] == list[k];
    RemovalPassComplete(grown, persisted, 0);
    assert grown[0..] == grown;
  }

  /** Every entry of a list of persisted symbols is kept. */
  lemma {:induction false} KeptAll(list: seq<string>, persisted: seq<string>)
    requires forall s :: s in list ==> s in persisted
    ensures Kept(list, persisted) == list
  {
    if list != [] {
      KeptAll(list[1..], persisted);
      assert list == [list[0]] + list[1..];
    }
  }

  /** When no two neighbouring symbols of the in-memory list are both
      delisted, sync keeps the listed symbols that are still persisted, in
      their order, followed by the new ones in persisted order. */
  lemma SyncedInOrder(list: seq<string>, persisted: seq<string>)
    requires NoDuplicates(list)
    requires forall k :: 0 <= k < |list| - 1 ==> list[k] in persisted || list[k + 1] in persisted
    ensures Synced(list, persisted) == Kept(list, persisted) + NewInOrder(list, persisted)
  {
    var added := NewInOrder(list, persisted);
    var grown := AppendNew(list, persisted);
    AppendNewInOrder(list, persisted);
    assert forall k :: |list| <= k < |grown| ==> grown[k] == added[k - |list|] && grown[k] in persisted;
    assert forall k :: 0 <= k < |list| ==> grown[k] == list[k];
    RemovalPassComplete(grown, persisted, 0);
    assert grown[..0] == [] && grown[0..] == grown;
    KeptAppend(list, added, persisted);
    KeptAll(added, persisted);
  }

  /** A delisted symbol right after another delisted one stays listed. */
  lemma SyncedCanKeepDelisted(a: string, b: string, p: string)
    requires a != b && p != a && p != b
    ensures Synced([a, b], [p]) == [b, p]
  {
    assert AppendNew([a, b], [p]) == [a, b, p] by {
      assert [p][1..] == [];
    }
    assert RemoveFirst([a, b, p], a) == [b, p];
    assert RemovalPass([b, p], [p], 1) == [b, p];
  }

  // ---------------------------------------------------------------------
  // The manager

  /** The manager's invariant on its list and handle map. */
  ghost predicate Indexed(list: seq<string>, handles: map<string, Ticker>) {
    && NoDuplicates(list)
    && handles.Keys == (set s | s in list)
    && forall s :: s in handles ==> handles[s].symbol == s
  }

  lemma IndexedAdd(list: seq<string>, handles: map<string, Ticker>, x: string)
    requires Indexed(list, handles) && x !in list
    ensures Indexed(list + [x], handles[x := Ticker(x, None)])
  {
    assert (set s | s in list + [x]) == (set s | s in list) + {x};
  }

  lemma IndexedRemove(list: seq<string>, handles: map<string, Ticker>, x: string)
    requires Indexed(list, handles) && x in list
    ensures Indexed(RemoveFirst(list, x), handles - {x})
  {
  }

  class TickerManager {
    var tickerList: seq<string>
    /** `ticker_obj_list`; its insertion order is that of `tickerList`. */
    var handles: map<string, Ticker>
    /** `.data/1_ticker_manager.json`. */
    var registry: JsonFile<RegistryRecord>

    /** The handle map holds exactly the listed symbols, each under its own
        symbol, and the list has no repeats. */
    ghost predicate Valid()
      reads this
    {
      Indexed(tickerList, handles)
    }

    /** `__init__`: read the registry (creating it if missing) and make an
        empty handle for each listed symbol. */
    constructor (file: JsonFile<RegistryRecord>)
      ensures registry == AfterRead(file, map[])
      ensures tickerList == TickerListOf(Parsed(file, map[]))
      ensures handles == map s | s in tickerList :: Ticker(s, None)
      ensures NoDuplicates(tickerList) ==> Valid()
    {
      var list := TickerListOf(Parsed(file, map[]));
      var objs: map<string, Ticker> := map[];
      var i := 0;
      while i < |list|
        invariant 0 <= i <= |list|
        invariant objs == map s | s in list[..i] :: Ticker(s, None)
      {
        assert list[..i + 1] == list[..i] + [list[i]];
        objs := objs[list[i] := Ticker(list[i], None)];
        i := i + 1;
      }
      assert list[..i] == list;
      registry := AfterRead(file, map[]);
      tickerList := list;
      handles := objs;
    }

    /** `__read_all_tickers`. */
    method ReadAllTickers() returns (all: RegistryRecord)
      modifies this`registry
      ensures all == Parsed(old(registry), map[])
      ensures registry == AfterRead(old(registry), map[])
    {
      all := Parsed(registry, map[]);
      registry := AfterRead(registry, map[]);
    }

    /** `__write_all_tickers`. */
    method WriteAllTickers(data: RegistryRecord)
      modifies this`registry
      ensures registry == JsonFile.Valid(data)
    {
      registry := JsonFile.Valid(data);
    }

    /** `add_ticker`: in memory only. */
    method AddTicker(symbol: string) returns (reply: Reply)
      requires Valid()
      modifies this`tickerList, this`handles
      ensures Valid()
      ensures reply.status <==> symbol !in old(tickerList)
      ensures reply.status ==> reply.reason == Added
                               && tickerList == old(tickerList) + [symbol]
                               && handles == old(handles)[symbol := Ticker(symbol, None)]
      ensures !reply.status ==> reply.reason == AlreadyPresent
                                && tickerList == old(tickerList) && handles == old(handles)
    {
      if symbol !in tickerList {
        IndexedAdd(tickerList, handles, symbol);
        tickerList := tickerList + [symbol];
        handles := handles[symbol := Ticker(symbol, None)];
        return Reply(true, Added);
      }
      return Reply(false, AlreadyPresent);
    }

    /** `remove_ticker`: in memory only. */
    method RemoveTicker(symbol: string) returns (removed: bool)
      requires Valid()
      modifies this`tickerList, this`handles
      ensures Valid()
      ensures removed <==> symbol in old(tickerList)
      ensures removed ==> tickerList == RemoveFirst(old(tickerList), symbol)
                          && handles == old(handles) - {symbol}
      ensures !removed ==> tickerList == old(tickerList) && handles == old(handles)
      ensures symbol !in tickerList && symbol !in handles
    {
      if symbol in tickerList {
        IndexedRemove(tickerList, handles, symbol);
        tickerList := RemoveFirst(tickerList, symbol);
        handles := handles - {symbol};
        return true;
      }
      return false;
    }

    /** `lazy_add_ticker`: rewrite the persisted list as the in-memory list
        plus `symbol`, if `symbol` is new and valid; memory is untouched. */
    method LazyAddTicker(symbol: string, isValidSymbol: string -> bool) returns (reply: Reply)
      modifies this`registry
      ensures symbol in tickerList ==>
                reply == Reply(false, AlreadyPresent) && registry == old(registry)
      ensures symbol !in tickerList && !isValidSymbol(symbol) ==>
                reply == Reply(false, InvalidSymbol) && registry == old(registry)
      ensures symbol !in tickerList && isValidSymbol(symbol) ==>
                reply == Reply(true, Added) && registry == LazyAdded(old(registry), tickerList, symbol)
    {
      if symbol !in tickerList {
        if isValidSymbol(symbol) {
          var all := ReadAllTickers();
          all := all[TickerListKey := SymbolList(tickerList + [symbol])];
          WriteAllTickers(all);
          return Reply(true, Added);
        } else {
          return Reply(false, InvalidSymbol);
        }
      }
      return Reply(false, AlreadyPresent);
    }

    /** `lazy_remove_ticker`: rewrite the persisted list as the in-memory
        list without `symbol`; memory is untouched. */
    method LazyRemoveTicker(symbol: string) returns (reply: Reply)
      modifies this`registry
      ensures symbol in tickerList ==>
                reply == Reply(true, Removed) && registry == LazyRemoved(old(registry), tickerList, symbol)
      ensures symbol !in tickerList ==>
                reply == Reply(false, NotPresent) && registry == old(registry)
    {
      if symbol in tickerList {
        var all := ReadAllTickers();
        all := all[TickerListKey := SymbolList(Without(tickerList, symbol))];
        WriteAllTickers(all);
        return Reply(true, Removed);
      }
      return Reply(false, NotPresent);
    }

    /** `sync_tickers`: append persisted symbols that memory lacks (with
        empty handles), then drop listed symbols the record no longer has,
        by a loop that removes from the list it walks. */
    method SyncTickers()
      requires Valid()
      modifies this
      ensures Valid()
      ensures registry == AfterRead(old(registry), map[])
      ensures tickerList == Synced(old(tickerList), TickerListOf(Parsed(old(registry), map[])))
      ensures forall s :: s in handles && s in old(handles) ==> handles[s] == old(handles)[s]
      ensures forall s :: s in handles && s !in old(handles) ==> handles[s] == Ticker(s, None)
    {
      var all := ReadAllTickers();
      var persisted := TickerListOf(all);
      AppendPersisted(persisted);
      RemovalPassKeeps(tickerList, persisted, 0);
      DropDelisted(persisted);
    }

    /** The first loop of `sync_tickers`. */
    method AppendPersisted(persisted: seq<string>)
      requires Valid()
      modifies this`tickerList, this`handles
      ensures Valid()
      ensures tickerList == AppendNew(old(tickerList), persisted)
      ensures forall s :: s in handles && s in old(handles) ==> handles[s] == old(handles)[s]
      ensures forall s :: s in handles && s !in old(handles) ==> handles[s] == Ticker(s, None)
    {
      ghost var target := AppendNew(tickerList, persisted);
      var j := 0;
      while j < |persisted|
        invariant 0 <= j <= |persisted|
        invariant Valid()
        invariant AppendNew(tickerList, persisted[j..]) == target
        invariant forall s :: s in old(handles) ==> s in handles && handles[s] == old(handles)[s]
        invariant forall s :: s in handles && s !in old(handles) ==> handles[s] == Ticker(s, None)
      {
        assert persisted[j..][1..] == persisted[j + 1..];
        var symbol := persisted[j];
        if symbol !in tickerList {
          IndexedAdd(tickerList, handles, symbol);
          tickerList := tickerList + [symbol];
          handles := handles[symbol := Ticker(symbol, None)];
        }
        j := j + 1;
      }
      assert persisted[j..] == [];
    }

    /** The second loop of `sync_tickers`: walk the list by position while
        removing from it, as Python's list iterator does. */
    method DropDelisted(persisted: seq<string>)
      requires Valid()
      modifies this`tickerList, this`handles
      ensures Valid()
      ensures tickerList == RemovalPass(old(tickerList), persisted, 0)
      ensures forall s :: s in handles ==> s in old(handles) && handles[s] == old(handles)[s]
    {
      var i := 0;
      while i < |tickerList|
        invariant Valid()
        invariant RemovalPass(tickerList, persisted, i) == RemovalPass(old(tickerList), persisted, 0)
        invariant forall s :: s in handles ==> s in old(handles) && handles[s] == old(handles)[s]
        decreases |tickerList| + 1 - i
      {
        var symbol := tickerList[i];
        if symbol !in persisted {
          IndexedRemove(tickerList, handles, symbol);
          tickerList := RemoveFirst(tickerList, symbol);
          handles := handles - {symbol};
        }
        i := i + 1;
      }
    }

    /** `get_ticker`. */
    function GetTicker(symbol: string): (t: Option<Ticker>)
      reads this
      requires Valid()
      ensures t.Some? <==> symbol in tickerList
      ensures t.Some? ==> t.value == handles[symbol] && t.value.symbol == symbol
    {
      if symbol in handles then Some(handles[symbol]) else None
    }

    /** `get_all_tickers`: the handle map, one handle per listed symbol. */
    function GetAllTickers(): (all: map<string, Ticker>)
      reads this
      requires Valid()
      ensures all == handles
      ensures all.Keys == (set s | s in tickerList)
      ensures forall s :: s in all ==> all[s].symbol == s
    {
      handles
    }

    /** The last step of `Ticker.get_historical_data`: the handle keeps the
        fetched series. */
    method SetHistoricalData(symbol: string, data: seq<Bar>)
      requires Valid() && symbol in handles
      modifies this`handles
      ensures Valid()
      ensures handles == old(handles)[symbol := old(handles)[symbol].(historicalData := Some(data))]
      ensures GetTicker(symbol) == Some(Ticker(symbol, Some(data)))
    {
      handles := handles[symbol := handles[symbol].(historicalData := Some(data))];
    }
  }
}
