/** The argument checks of `TickerAI`: `validate_api_arguments` judges the
    download arguments a language model proposed, and `get_api_arguments`
    hands back the decoded proposal. The model's reply is an input here. */
module TickerAI {
  import opened Common
  import opened Dates

  /** A decoded JSON value. */
  datatype Json =
    | JNull
    | JBool(b: bool)
    | JNumber(n: int)
    | JString(s: string)
    | JArray(items: seq<Json>)
    | JObject(fields: map<string, Json>)

  const ValidIntervals: seq<string> :=
    ["1m", "2m", "5m", "15m", "30m", "60m", "90m", "1h", "1d", "5d", "1wk", "1mo", "3mo"]

  /** The intervals allowed for a range of more than `MaxFineSpanDays` days. */
  const CoarseIntervals: seq<string> := ["1d", "5d", "1wk", "1mo", "3mo"]

  const MaxFineSpanDays: int := 700

  /** The exception that ends `validate_api_arguments`, in the order the
      checks run. */
  datatype Rejection =
    | NotAnObject            // indexing a non-dict raises TypeError
    | MissingKey(key: string) // KeyError
    | NoRationale
    | InvalidSymbol
    | BadDate(key: string)    // not a string, or `strptime` does not match
    | InvalidInterval
    | IntervalTooFineForRange

  datatype Verdict = Accepted | Rejected(why: Rejection)

  /** `datetime.strptime(v, '%Y-%m-%d')`, or `None` where it raises. */
  function StrpDate(v: Json): (d: Option<Date>)
    ensures d.Some? ==> ValidDate(d.value)
    ensures d.Some? <==> v.JString? && ParseYmd(v.s).Some?
  {
    match v
    case JString(s) => ParseYmd(s)
    case _ => None
  }

  /** Whether a JSON value equals one of the listed strings (`in` on a list
      of strings: a non-string is never equal). */
  predicate AmongStrings(v: Json, options: seq<string>) {
    v.JString? && v.s in options
  }

  /** The checks of `validate_api_arguments`, in the source's order. */
  function Check(output: Json, isValidSymbol: Json -> bool): (v: Verdict)
    ensures v == Accepted ==> output.JObject?
  {
    match output
    case JObject(d) =>
      if "rationale" !in d then Rejected(MissingKey("rationale"))
      else if d["rationale"] == JNull || d["rationale"] == JString("") then Rejected(NoRationale)
      else if "symbol" !in d then Rejected(MissingKey("symbol"))
      else if !isValidSymbol(d["symbol"]) then Rejected(InvalidSymbol)
      else if "start_date" !in d then Rejected(MissingKey("start_date"))
      else if StrpDate(d["start_date"]).None? then Rejected(BadDate("start_date"))
      else if "end_date" !in d then Rejected(MissingKey("end_date"))
      else if StrpDate(d["end_date"]).None? then Rejected(BadDate("end_date"))
      else if "interval" !in d then Rejected(MissingKey("interval"))
      else if !AmongStrings(d["interval"], ValidIntervals) then Rejected(InvalidInterval)
      else
        var span := DaysBetween(StrpDate(d["start_date"]).value, StrpDate(d["end_date"]).value);
        if span > MaxFineSpanDays && !AmongStrings(d["interval"], CoarseIntervals) then
          Rejected(IntervalTooFineForRange)
        else Accepted
    case _ => Rejected(NotAnObject)
  }

  /** The rules a proposal must meet, stated each on its own. */
  predicate MeetsRules(d: map<string, Json>, isValidSymbol: Json -> bool) {
    && "rationale" in d && d["rationale"] != JNull && d["rationale"] != JString("")
    && "symbol" in d && isValidSymbol(d["symbol"])
    && "start_date" in d && StrpDate(d["start_date"]).Some?
    && "end_date" in d && StrpDate(d["end_date"]).Some?
    && "interval" in d && AmongStrings(d["interval"], ValidIntervals)
    && (ToOrdinal(StrpDate(d["end_date"]).value) - ToOrdinal(StrpDate(d["start_date"]).value) > MaxFineSpanDays
        ==> AmongStrings(d["interval"], CoarseIntervals))
  }

  /** `validate_api_arguments`: never raises; `True` exactly when every rule
      holds. */
  function ValidateApiArguments(output: Json, isValidSymbol: Json -> bool): (ok: bool)
    ensures ok <==> output.JObject? && MeetsRules(output.fields, isValidSymbol)
  {
    CheckMeetsRules(output, isValidSymbol);
    Check(output, isValidSymbol) == Accepted
  }

  /** The chain of checks accepts exactly the proposals that meet the rules;
      the span `(end_date - start_date).days` is the ordinal difference. */
  lemma CheckMeetsRules(output: Json, isValidSymbol: Json -> bool)
    ensures Check(output, isValidSymbol) == Accepted <==> output.JObject? && MeetsRules(output.fields, isValidSymbol)
  {
    if output.JObject? {
      var d := output.fields;
      if "start_date" in d && "end_date" in d && StrpDate(d["start_date"]).Some? && StrpDate(d["end_date"]).Some? {
        var start := StrpDate(d["start_date"]).value;
        var end := StrpDate(d["end_date"]).value;
        SpanIsOrdinalDifference(start, end);
      }
    }
  }

  lemma SpanIsOrdinalDifference(start: Date, end: Date)
    requires ValidDate(start) && ValidDate(end)
    ensures DaysBetween(start, end) == ToOrdinal(end) - ToOrdinal(start)
  {
    OrdinalRoundTrip(end);
  }

  /** A missing, null or empty rationale is rejected, whatever else holds. */
  lemma NoRationaleRejected(d: map<string, Json>, isValidSymbol: Json -> bool)
    requires "rationale" !in d || d["rationale"] == JNull || d["rationale"] == JString("")
    ensures !ValidateApiArguments(JObject(d), isValidSymbol)
  {
  }

  /** An interval outside the list is rejected. */
  lemma UnlistedIntervalRejected(d: map<string, Json>, isValidSymbol: Json -> bool)
    requires "interval" in d && !AmongStrings(d["interval"], ValidIntervals)
    ensures !ValidateApiArguments(JObject(d), isValidSymbol)
  {
  }

  /** Anything that is not a JSON object is rejected rather than raising. */
  lemma NonObjectRejected(output: Json, isValidSymbol: Json -> bool)
    requires !output.JObject?
    ensures !ValidateApiArguments(output, isValidSymbol)
    ensures Check(output, isValidSymbol) == Rejected(NotAnObject)
  {
  }

  /** A proposal with a rationale, a valid symbol and two dates. */
  function Proposal(start: Date, end: Date, interval: string): (d: map<string, Json>)
    requires ValidDate(start) && ValidDate(end)
    ensures d.Keys == {"rationale", "symbol", "start_date", "end_date", "interval"}
  {
    map["rationale" := JString("r"), "symbol" := JString("SPY"),
        "start_date" := JString(FormatYmd(start)), "end_date" := JString(FormatYmd(end)),
        "interval" := JString(interval)]
  }

  /** The range rule at its edge: 700 days are accepted with a fine
      interval, 701 are not. */
  lemma RangeRuleEdge(start: Date, end: Date, interval: string, isValidSymbol: Json -> bool)
    requires ValidDate(start) && ValidDate(end)
    requires isValidSymbol(JString("SPY"))
    requires interval in ValidIntervals && interval !in CoarseIntervals
    ensures ToOrdinal(end) - ToOrdinal(start) == MaxFineSpanDays ==>
              ValidateApiArguments(JObject(Proposal(start, end, interval)), isValidSymbol)
    ensures ToOrdinal(end) - ToOrdinal(start) == MaxFineSpanDays + 1 ==>
              !ValidateApiArguments(JObject(Proposal(start, end, interval)), isValidSymbol)
  {
    FormatParseRoundTrip(start);
    FormatParseRoundTrip(end);
  }

  /** The order of the dates is not checked: an end before the start
      passes the range rule with any listed interval. */
  lemma NegativeSpanAccepted(start: Date, end: Date, interval: string, isValidSymbol: Json -> bool)
    requires ValidDate(start) && ValidDate(end) && ToOrdinal(end) < ToOrdinal(start)
    requires isValidSymbol(JString("SPY")) && interval in ValidIntervals
    ensures ValidateApiArguments(JObject(Proposal(start, end, interval)), isValidSymbol)
  {
    FormatParseRoundTrip(start);
    FormatParseRoundTrip(end);
  }

  /** `strptime` accepts one-digit month and day fields. */
  lemma ShortFieldsParse()
    ensures ParseYmd("2024-1-5") == Some(Date(2024, 1, 5))
  {
  }

  // ---------------------------------------------------------------------
  // get_api_arguments

  /** The model's reply: the chat call raised, or it returned text that does
      or does not decode as JSON. */
  datatype Reply = ChatRaised | Malformed | Wellformed(value: Json)

  /** What `get_api_arguments` gives: `None`, the `JSONDecodeError` it lets
      escape, or the decoded value. */
  datatype ApiArguments = NoArguments | DecodeRaised | Arguments(value: Json)

  function GetApiArguments(reply: Reply, isValidSymbol: Json -> bool): (r: ApiArguments)
    ensures reply.ChatRaised? <==> r.NoArguments?
    ensures reply.Malformed? <==> r.DecodeRaised?
    ensures reply.Wellformed? ==> r == Arguments(reply.value)
  {
    match reply
    case ChatRaised => NoArguments
    case Malformed => DecodeRaised
    case Wellformed(output) =>
      var validated := ValidateApiArguments(output, isValidSymbol);
      if validated then Arguments(output) else Arguments(output)
  }

  /** Validation does not filter: the result is the same whatever the
      symbol check says, so rejected proposals are returned too. */
  lemma ValidationDoesNotFilter(reply: Reply, a: Json -> bool, b: Json -> bool)
    ensures GetApiArguments(reply, a) == GetApiArguments(reply, b)
  {
  }
}
