/** The decision logic of `update_rate_nodejs.js`: the field checks of the two
    API fetchers, the USD-then-dólar patterns of `fetchBCVRate`, and the `||`
    and ternary chains, the two records and the history retention of
    `updateRates`. */
module NodeUpdater {
  import opened Wrappers
  import opened Scan
  import opened RateFile

  /** `a || b` on two rates: the first operand when it is truthy, else the second. */
  function JsOr(a: Option<real>, b: Option<real>): Option<real> {
    if Truthy(a) then a else b
  }

  /** `json.rates && json.rates.VES`, then the member or null. */
  function FetchExchangeRateApi(reply: ApiReply): (r: Option<real>)
    ensures r.Some? <==> HasField(reply, "rates", "VES") && Truthy(FieldValue(reply, "rates", "VES"))
    ensures r.Some? ==> r == FieldValue(reply, "rates", "VES") && Truthy(r)
  {
    if HasField(reply, "rates", "VES") && Truthy(FieldValue(reply, "rates", "VES")) then
      FieldValue(reply, "rates", "VES")
    else None
  }

  /** `json.USD && json.USD.promedio_real`, then the member or null. */
  function FetchDolarToday(reply: ApiReply): (r: Option<real>)
    ensures r.Some? <==> HasField(reply, "USD", "promedio_real") && Truthy(FieldValue(reply, "USD", "promedio_real"))
    ensures r.Some? ==> r == FieldValue(reply, "USD", "promedio_real") && Truthy(r)
  {
    if HasField(reply, "USD", "promedio_real") && Truthy(FieldValue(reply, "USD", "promedio_real")) then
      FieldValue(reply, "USD", "promedio_real")
    else None
  }

  /** `fetchBCVRate` on the page body (None when the request failed): the value
      of `/USD.*?(\d+)[,.](\d+)/i`, else of `/d[oó]lar.*?(\d+)[,.](\d+)/i`,
      else null. */
  function FetchBcvRate(html: Option<string>): Option<real> {
    match html
    case None => None
    case Some(page) =>
      match KeywordSearch(Usd, page)
      case Some(usd) => Some(Value(usd.groups))
      case None =>
        match KeywordSearch(Dolar, page)
        case Some(dolar) => Some(Value(dolar.groups))
        case None => None
  }

  /** The USD pattern is tried first and decides whenever it matches; the
      dólar pattern is used only when the USD pattern matches nowhere; and
      there is no rate exactly when neither pattern matches anywhere. */
  lemma FetchBcvRatePrefersUsd(page: string)
    ensures KeywordSearch(Usd, page).Some? ==>
      FetchBcvRate(Some(page)) == Some(Value(KeywordSearch(Usd, page).value.groups))
    ensures (forall i, q, a, b :: !KeywordCandidate(Usd, page, i, q, a, b)) ==>
      FetchBcvRate(Some(page)) == (if KeywordSearch(Dolar, page).Some?
                                   then Some(Value(KeywordSearch(Dolar, page).value.groups)) else None)
    ensures FetchBcvRate(Some(page)).None? <==>
      (forall i, q, a, b :: !KeywordCandidate(Usd, page, i, q, a, b)) &&
      (forall i, q, a, b :: !KeywordCandidate(Dolar, page, i, q, a, b))
  {
    KeywordSearchIsLeftmostLazy(Usd, page);
    KeywordSearchIsLeftmostLazy(Dolar, page);
  }

  /** The literal default of the chain. */
  const FALLBACK_RATE: real := 40.5

  /** `bcvRate || exchangeApiRate || dolarTodayRate || 40.50` */
  function FinalRate(bcvRate: Option<real>, exchangeApiRate: Option<real>, dolarTodayRate: Option<real>): (r: real)
    ensures r != 0.0
    ensures r == FALLBACK_RATE || Some(r) == bcvRate || Some(r) == exchangeApiRate || Some(r) == dolarTodayRate
  {
    JsOr(bcvRate, JsOr(exchangeApiRate, JsOr(dolarTodayRate, Some(FALLBACK_RATE)))).value
  }

  /** The ternary chain that names the source. */
  function Source(bcvRate: Option<real>, exchangeApiRate: Option<real>, dolarTodayRate: Option<real>): string {
    if Truthy(bcvRate) then "BCV Official"
    else if Truthy(exchangeApiRate) then "ExchangeRate-API"
    else if Truthy(dolarTodayRate) then "DolarToday"
    else "Fallback"
  }

  /** The label and the rate follow the same chain: each label names exactly
      the case in which its operand is the value chosen. */
  lemma SourceNamesFinalRate(bcvRate: Option<real>, exchangeApiRate: Option<real>, dolarTodayRate: Option<real>)
    ensures var r := FinalRate(bcvRate, exchangeApiRate, dolarTodayRate);
      var name := Source(bcvRate, exchangeApiRate, dolarTodayRate);
      (name == "BCV Official" <==> Truthy(bcvRate)) &&
      (name == "BCV Official" ==> bcvRate == Some(r)) &&
      (name == "ExchangeRate-API" <==> !Truthy(bcvRate) && Truthy(exchangeApiRate)) &&
      (name == "ExchangeRate-API" ==> exchangeApiRate == Some(r)) &&
      (name == "DolarToday" <==> !Truthy(bcvRate) && !Truthy(exchangeApiRate) && Truthy(dolarTodayRate)) &&
      (name == "DolarToday" ==> dolarTodayRate == Some(r)) &&
      (name == "Fallback" <==> !Truthy(bcvRate) && !Truthy(exchangeApiRate) && !Truthy(dolarTodayRate)) &&
      (name == "Fallback" ==> r == FALLBACK_RATE)
  {
  }

  /** `now.toISOString().split('T')[0]`: the text before the first `T`. */
  function DatePart(iso: string): (d: string)
    ensures d <= iso
    ensures forall k :: 0 <= k < |d| ==> d[k] != 'T'
    ensures |d| < |iso| ==> iso[|d|] == 'T'
  {
    if iso == [] || iso[0] == 'T' then [] else [iso[0]] + DatePart(iso[1..])
  }

  const BCV_OFFICIAL := "bcv_official"
  const EXCHANGE_API := "exchange_api"
  const DOLAR_TODAY := "dolar_today"
  /** `existing.history.slice(-29)` */
  const HISTORY_KEEP: nat := 29

  /** One run of `updateRates`: the three fetches (independent of one
      another, so their concurrency does not matter), the chains, both
      records and the history. `now` is the ISO text of the one instant the
      run reads; `prior` is the history of the previous `rates.json`, or None
      when the file is missing, does not parse or has no `history`. */
  method UpdateRates(bcvPage: Option<string>, exchangeReply: ApiReply, dolarReply: ApiReply,
                     now: string, prior: Option<seq<RateRecord>>)
    returns (currentData: CurrentRate, fullData: RatesFile)
    ensures var b, e, d := FetchBcvRate(bcvPage), FetchExchangeRateApi(exchangeReply), FetchDolarToday(dolarReply);
      var r := FinalRate(b, e, d);
      currentData == CurrentRate(Some(r), now, DatePart(now)) &&
      fullData.rates == RateSnapshot(Some(r), Source(b, e, d), now) &&
      fullData.allRates == map[BCV_OFFICIAL := b, EXCHANGE_API := e, DOLAR_TODAY := d] &&
      fullData.history == NextHistory(prior, HISTORY_KEEP, RateRecord(DatePart(now), Some(r), now))
    ensures fullData.timestamp == now && fullData.date == DatePart(now)
    ensures |fullData.history| <= HISTORY_KEEP + 1
    ensures currentData.bcv == fullData.rates.bcv == fullData.history[|fullData.history| - 1].bcv
    ensures Truthy(currentData.bcv)
  {
    var bcvRate := FetchBcvRate(bcvPage);
    var exchangeApiRate := FetchExchangeRateApi(exchangeReply);
    var dolarTodayRate := FetchDolarToday(dolarReply);
    var finalRate := FinalRate(bcvRate, exchangeApiRate, dolarTodayRate);
    var source := Source(bcvRate, exchangeApiRate, dolarTodayRate);
    var date := DatePart(now);
    currentData := CurrentRate(Some(finalRate), now, date);
    fullData := RatesFile(now, date, RateSnapshot(Some(finalRate), source, now),
                          map[BCV_OFFICIAL := bcvRate, EXCHANGE_API := exchangeApiRate,
                              DOLAR_TODAY := dolarTodayRate],
                          []);
    if prior.Some? {
      fullData := fullData.(history := KeepLast(prior.value, HISTORY_KEEP));
    }
    fullData := fullData.(history := fullData.history + [RateRecord(fullData.date, Some(finalRate), fullData.timestamp)]);
  }

  /** A prior history of 30 entries plus one run stays at 30 entries, the new
      record last: the cut to 29 leaves room for it. */
  lemma HistoryOfThirtyStaysThirty(prior: seq<RateRecord>, rec: RateRecord)
    requires |prior| == 30
    ensures |NextHistory(Some(prior), HISTORY_KEEP, rec)| == 30
    ensures NextHistory(Some(prior), HISTORY_KEEP, rec)[29] == rec
  {
    NextHistoryShape(Some(prior), HISTORY_KEEP, rec);
  }

  /** Once 30 runs or more have written the file, it holds exactly the last
      30 records. */
  lemma NodeSteadyHistory(h: seq<RateRecord>, recs: seq<RateRecord>)
    requires |recs| >= HISTORY_KEEP + 1
    ensures |Replay(h, recs, HISTORY_KEEP)| == 30
    ensures Replay(h, recs, HISTORY_KEEP) == recs[|recs| - 30..]
  {
    SteadyHistory(h, recs, HISTORY_KEEP);
  }
}
