/** The per-symbol signal-state store of `SignalBase`: one JSON file per
    symbol, `.data/<symbol>.json`, holding for each signal name a mapping of
    state keys to a string or null. Reads fall back to an empty record;
    writes re-read the whole record, replace one signal's mapping, and
    rewrite the whole file. */
module Signals {
  import opened Common

  /** One signal's persisted state: state key to a string or JSON null. */
  type SignalState = map<string, Option<string>>

  /** Everything stored for one symbol: signal name to that signal's state. */
  type SymbolRecord = map<string, SignalState>

  type CacheFile = JsonFile<SymbolRecord>

  /** The record `__read_all_cache` returns for a file in state `f`. */
  function ReadAll(f: CacheFile): (all: SymbolRecord)
    ensures f.Valid? ==> all == f.content
    ensures !f.Valid? ==> all == map[]
  {
    Parsed(f, map[])
  }

  /** `read_cache`: the stored mapping for `name`, `{}` when there is none. */
  function Lookup(f: CacheFile, name: string): (state: SignalState)
    ensures f.Valid? && name in f.content ==> state == f.content[name]
    ensures !(f.Valid? && name in f.content) ==> state == map[]
  {
    var all := ReadAll(f);
    if name in all then all[name] else map[]
  }

  /** The file after `write_cache(symbol, name, data)`: the record read back
      (empty for a missing or malformed file) with `name` rebound to `data`. */
  function Written(f: CacheFile, name: string, data: SignalState): (g: CacheFile)
    ensures g.Valid?
    ensures Lookup(g, name) == data
    ensures forall n :: n != name ==> Lookup(g, n) == Lookup(f, n)
    ensures g.content.Keys == ReadAll(f).Keys + {name}
    ensures !f.Valid? ==> g.content == map[name := data]
  {
    Valid(ReadAll(f)[name := data])
  }

  /** The whole mapping is replaced: keys of the old mapping that `data`
      lacks are gone after the write. */
  lemma WriteReplacesNotMerges(f: CacheFile, name: string, data: SignalState, key: string)
    requires key in Lookup(f, name) && key !in data
    ensures key !in Lookup(Written(f, name, data), name)
  {
  }

  /** A missing file and a malformed file read the same as an empty one. */
  lemma AbsentOrCorruptReadsEmpty(name: string)
    ensures Lookup(Missing, name) == map[] && Lookup(Corrupt, name) == map[]
    ensures Lookup(Missing, name) == Lookup(Valid(map[]), name)
  {
  }

  /** The state of one symbol's file in a folder listing; no entry means no
      file. */
  function FileOf(files: map<string, CacheFile>, symbol: string): (f: CacheFile)
    ensures symbol !in files ==> f.Missing?
    ensures symbol in files ==> f == files[symbol]
  {
    if symbol in files then files[symbol] else Missing
  }

  /** The `.data/` folder as far as signal state goes. */
  class SignalCache {
    /** `.data/<symbol>.json` for each symbol that has a file. */
    var files: map<string, CacheFile>

    /** The state of one symbol's file. */
    function File(symbol: string): (f: CacheFile)
      reads this
      ensures f == FileOf(files, symbol)
    {
      FileOf(files, symbol)
    }

    constructor (initial: map<string, CacheFile>)
      ensures files == initial
    {
      files := initial;
    }

    /** `__read_all_cache`: a missing file is created holding `{}`; a
        malformed one reads as `{}` and is left as it is. */
    method ReadAllCache(symbol: string) returns (all: SymbolRecord)
      modifies this
      ensures all == ReadAll(old(File(symbol)))
      ensures files == old(files)[symbol := AfterRead(old(File(symbol)), map[])]
    {
      var f := File(symbol);
      match f
      case Missing =>
        files := files[symbol := Valid(map[])];
        all := map[];
      case Corrupt =>
        all := map[];
      case Valid(record) =>
        all := record;
    }

    /** `read_cache(symbol, name)`. */
    method ReadCache(symbol: string, name: string) returns (state: SignalState)
      modifies this
      ensures state == Lookup(old(File(symbol)), name)
      ensures files == old(files)[symbol := AfterRead(old(File(symbol)), map[])]
    {
      var all := ReadAllCache(symbol);
      state := if name in all then all[name] else map[];
    }

    /** `write_cache(symbol, name, data)`: read-modify-write of the symbol's
        whole record; no other symbol's file is touched. */
    method WriteCache(symbol: string, name: string, data: SignalState)
      modifies this
      ensures files == old(files)[symbol := Written(old(File(symbol)), name, data)]
      ensures File(symbol) == Written(old(File(symbol)), name, data)
      ensures forall s :: s != symbol ==> File(s) == old(File(s))
    {
      var all := ReadAllCache(symbol);
      all := all[name := data];
      files := files[symbol := Valid(all)];
    }
  }
}
