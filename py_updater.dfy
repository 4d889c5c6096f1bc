/** The decision logic of `scripts/update_rate.py`: the three ordered
    extraction strategies of `fetch_bcv_rate`, the key-presence checks of
    `fetch_alternative_rates`, and the rate selection, `all_rates`, history
    retention and `current_rate.json` projection of `update_rate_file`. */
module PyUpdater {
  import opened Wrappers
  import opened Scan
  import opened RateFile

  /** A text node of the parsed page, with the text of its parent element. */
  datatype TextNode = TextNode(text: string, parentText: string)

  /** What the three strategies read from the parsed page, in document order:
      every text node, the texts of the `div`s with class `centrado`,
      `pull-right` or `field-content`, and the texts of the `strong` tags. */
  datatype Page = Page(textNodes: seq<TextNode>, rateDivs: seq<string>, strongTexts: seq<string>)

  /** The plausible range of method 2, exclusive at both ends. */
  const SANE_LOW: real := 30.0
  const SANE_HIGH: real := 100.0

  /** `soup.find(text=...)`: the first text node, from index `from` on, in
      which `[Dd][oó]lar` occurs. */
  function FindDolarNode(nodes: seq<TextNode>, from: nat): (r: Option<nat>)
    requires from <= |nodes|
    ensures r.Some? ==> from <= r.value < |nodes| && MentionsDolar(nodes[r.value].text)
    ensures forall k :: from <= k < |nodes| && (r.None? || k < r.value) ==> !MentionsDolar(nodes[k].text)
    decreases |nodes| - from
  {
    if from == |nodes| then None
    else if MentionsDolar(nodes[from].text) then Some(from)
    else FindDolarNode(nodes, from + 1)
  }

  /** Method 1: the first comma-separated decimal in the parent text of the
      first node that mentions the dollar. */
  function DolarStrategy(nodes: seq<TextNode>): Option<real> {
    match FindDolarNode(nodes, 0)
    case None => None
    case Some(k) =>
      match Search(nodes[k].parentText, CommaOnly)
      case None => None
      case Some(m) => Some(Value(m))
  }

  /** Method 1 reads only the first node mentioning the dollar, accepts only a
      comma, and fails exactly when that node's parent text holds no
      digits-comma-digits; with no such node it fails. */
  lemma DolarStrategyReadsFirstMention(nodes: seq<TextNode>, k: nat)
    requires k < |nodes| && MentionsDolar(nodes[k].text)
    requires forall j :: 0 <= j < k ==> !MentionsDolar(nodes[j].text)
    ensures DolarStrategy(nodes).None? <==>
      forall q, a, b :: !Candidate(nodes[k].parentText, CommaOnly, q, a, b)
    ensures DolarStrategy(nodes).Some? ==>
      var m := Search(nodes[k].parentText, CommaOnly).value;
      m.sep == ',' && DolarStrategy(nodes).value == Value(m)
  {
    assert FindDolarNode(nodes, 0) == Some(k);
    SearchIsLeftmost(nodes[k].parentText, CommaOnly);
  }

  lemma DolarStrategyNeedsMention(nodes: seq<TextNode>)
    requires forall j :: 0 <= j < |nodes| ==> !MentionsDolar(nodes[j].text)
    ensures DolarStrategy(nodes).None?
  {
    assert FindDolarNode(nodes, 0).None?;
  }

  /** What a layout block yields under method 2: its first decimal with `,`
      or `.`, kept only inside the plausible range. */
  function SaneRate(t: string): (r: Option<real>)
    ensures r.Some? ==> SANE_LOW < r.value < SANE_HIGH
    ensures r.Some? ==> Search(t, CommaOrDot).Some? && r == Some(Value(Search(t, CommaOrDot).value))
    ensures Search(t, CommaOrDot).Some? && SANE_LOW < Value(Search(t, CommaOrDot).value) < SANE_HIGH ==>
      r == Some(Value(Search(t, CommaOrDot).value))
  {
    match Search(t, CommaOrDot)
    case None => None
    case Some(m) => if SANE_LOW < Value(m) < SANE_HIGH then Some(Value(m)) else None
  }

  /** A rate method 2 accepts has a whole part between 30 and 99. */
  lemma SaneRateWholePart(t: string)
    requires SaneRate(t).Some?
    ensures var m := Search(t, CommaOrDot).value; 30 <= DigitsValue(m.whole) <= 99
  {
    ValueBounds(Search(t, CommaOrDot).value);
  }

  /** What an emphasised text yields under method 3: when it contains `USD`
      or `$`, its first decimal with `,` or `.`, with no range check. */
  function MarkedRate(t: string): (r: Option<real>)
    ensures r.Some? ==> Contains(t, "USD") || Contains(t, "$")
    ensures (Contains(t, "USD") || Contains(t, "$")) && Search(t, CommaOrDot).Some? ==>
      r == Some(Value(Search(t, CommaOrDot).value))
    ensures Search(t, CommaOrDot).None? ==> r.None?
  {
    if Contains(t, "USD") || Contains(t, "$") then
      match Search(t, CommaOrDot)
      case None => None
      case Some(m) => Some(Value(m))
    else None
  }

  /** The rate of the first block, in order, that yields one under `rate`. */
  function FirstRate(blocks: seq<string>, rate: string -> Option<real>): Option<real>
    decreases |blocks|
  {
    if blocks == [] then None
    else if rate(blocks[0]).Some? then rate(blocks[0])
    else FirstRate(blocks[1..], rate)
  }

  lemma {:induction false} FirstRateIsFirst(blocks: seq<string>, rate: string -> Option<real>, k: nat)
    requires k < |blocks| && rate(blocks[k]).Some?
    requires forall j :: 0 <= j < k ==> rate(blocks[j]).None?
    ensures FirstRate(blocks, rate) == rate(blocks[k])
    decreases k
  {
    if k > 0 {
      assert rate(blocks[0]).None?;
      var rest := blocks[1..];
      forall j | 0 <= j < k - 1
        ensures rate(rest[j]).None?
      {
        assert rest[j] == blocks[j + 1];
      }
      FirstRateIsFirst(rest, rate, k - 1);
    }
  }

  lemma {:induction false} FirstRateFails(blocks: seq<string>, rate: string -> Option<real>)
    ensures FirstRate(blocks, rate).None? <==> forall k :: 0 <= k < |blocks| ==> rate(blocks[k]).None?
    decreases |blocks|
  {
    if blocks != [] {
      var rest := blocks[1..];
      FirstRateFails(rest, rate);
      assert forall k :: 1 <= k < |blocks| ==> blocks[k] == rest[k - 1];
    }
  }

  /** Method 2 as the script runs it: the first `div` whose decimal is in range. */
  method LayoutStrategy(divs: seq<string>) returns (rate: Option<real>)
    ensures rate == FirstRate(divs, SaneRate)
  {
    var i := 0;
    while i < |divs|
      invariant 0 <= i <= |divs|
      invariant FirstRate(divs[i..], SaneRate) == FirstRate(divs, SaneRate)
    {
      assert divs[i..][1..] == divs[i + 1..];
      var m := Search(divs[i], CommaOrDot);
      if m.Some? {
        var v := Value(m.value);
        if SANE_LOW < v < SANE_HIGH {
          return Some(v);
        }
      }
      i := i + 1;
    }
    return None;
  }

  /** Method 3 as the script runs it: the first `strong` text marked with
      `USD` or `$` that holds a decimal. */
  method MarkedStrategy(texts: seq<string>) returns (rate: Option<real>)
    ensures rate == FirstRate(texts, MarkedRate)
  {
    var i := 0;
    while i < |texts|
      invariant 0 <= i <= |texts|
      invariant FirstRate(texts[i..], MarkedRate) == FirstRate(texts, MarkedRate)
    {
      assert texts[i..][1..] == texts[i + 1..];
      if Contains(texts[i], "USD") || Contains(texts[i], "$") {
        var m := Search(texts[i], CommaOrDot);
        if m.Some? {
          return Some(Value(m.value));
        }
      }
      i := i + 1;
    }
    return None;
  }

  /** The three-way fall-through of `fetch_bcv_rate`, for any first result and
      any two block-scoring functions. */
  function FirstSuccess(first: Option<real>, blocks2: seq<string>, rate2: string -> Option<real>,
                        blocks3: seq<string>, rate3: string -> Option<real>): Option<real> {
    if first.Some? then first
    else if FirstRate(blocks2, rate2).Some? then FirstRate(blocks2, rate2)
    else FirstRate(blocks3, rate3)
  }

  /** What `fetch_bcv_rate` returns: nothing when the request failed (the
      caught exception), else the first strategy that succeeds. */
  function BcvRate(response: Option<Page>): Option<real> {
    match response
    case None => None
    case Some(page) =>
      FirstSuccess(DolarStrategy(page.textNodes), page.rateDivs, SaneRate, page.strongTexts, MarkedRate)
  }

  method FetchBcvRate(response: Option<Page>) returns (rate: Option<real>)
    ensures rate == BcvRate(response)
  {
    if response.None? {
      return None;
    }
    var page := response.value;
    rate := DolarStrategy(page.textNodes);
    if rate.Some? {
      return;
    }
    rate := LayoutStrategy(page.rateDivs);
    if rate.Some? {
      return;
    }
    rate := MarkedStrategy(page.strongTexts);
  }

  /** The first result wins when present; otherwise the first scoring block
      of the second list, then of the third; nothing exactly when all fail. */
  lemma FirstSuccessOrder(first: Option<real>, blocks2: seq<string>, rate2: string -> Option<real>,
                          blocks3: seq<string>, rate3: string -> Option<real>)
    ensures first.Some? ==> FirstSuccess(first, blocks2, rate2, blocks3, rate3) == first
    ensures forall k :: 0 <= k < |blocks2| && first.None? && rate2(blocks2[k]).Some? &&
                        (forall j :: 0 <= j < k ==> rate2(blocks2[j]).None?) ==>
      FirstSuccess(first, blocks2, rate2, blocks3, rate3) == rate2(blocks2[k])
    ensures forall k :: 0 <= k < |blocks3| && first.None? &&
                        (forall j :: 0 <= j < |blocks2| ==> rate2(blocks2[j]).None?) &&
                        rate3(blocks3[k]).Some? &&
                        (forall j :: 0 <= j < k ==> rate3(blocks3[j]).None?) ==>
      FirstSuccess(first, blocks2, rate2, blocks3, rate3) == rate3(blocks3[k])
    ensures FirstSuccess(first, blocks2, rate2, blocks3, rate3).None? <==>
      first.None? &&
      (forall j :: 0 <= j < |blocks2| ==> rate2(blocks2[j]).None?) &&
      (forall j :: 0 <= j < |blocks3| ==> rate3(blocks3[j]).None?)
  {
    FirstRateFails(blocks2, rate2);
    FirstRateFails(blocks3, rate3);
    forall k | 0 <= k < |blocks2| && rate2(blocks2[k]).Some? &&
               (forall j :: 0 <= j < k ==> rate2(blocks2[j]).None?)
      ensures FirstRate(blocks2, rate2) == rate2(blocks2[k])
    {
      FirstRateIsFirst(blocks2, rate2, k);
    }
    forall k | 0 <= k < |blocks3| && rate3(blocks3[k]).Some? &&
               (forall j :: 0 <= j < k ==> rate3(blocks3[j]).None?)
      ensures FirstRate(blocks3, rate3) == rate3(blocks3[k])
    {
      FirstRateIsFirst(blocks3, rate3, k);
    }
  }

  /** The strategies are tried in the order 1, 2, 3 and the first success is
      the result; a later strategy is consulted only when every earlier one
      failed, and there is no rate only when all three fail. */
  lemma BcvRateIsFirstSuccess(page: Page)
    ensures DolarStrategy(page.textNodes).Some? ==>
      BcvRate(Some(page)) == DolarStrategy(page.textNodes)
    ensures forall k :: 0 <= k < |page.rateDivs| && DolarStrategy(page.textNodes).None? &&
                        SaneRate(page.rateDivs[k]).Some? &&
                        (forall j :: 0 <= j < k ==> SaneRate(page.rateDivs[j]).None?) ==>
      BcvRate(Some(page)) == SaneRate(page.rateDivs[k])
    ensures forall k :: 0 <= k < |page.strongTexts| && DolarStrategy(page.textNodes).None? &&
                        (forall j :: 0 <= j < |page.rateDivs| ==> SaneRate(page.rateDivs[j]).None?) &&
                        MarkedRate(page.strongTexts[k]).Some? &&
                        (forall j :: 0 <= j < k ==> MarkedRate(page.strongTexts[j]).None?) ==>
      BcvRate(Some(page)) == MarkedRate(page.strongTexts[k])
    ensures BcvRate(Some(page)).None? <==>
      DolarStrategy(page.textNodes).None? &&
      (forall j :: 0 <= j < |page.rateDivs| ==> SaneRate(page.rateDivs[j]).None?) &&
      (forall j :: 0 <= j < |page.strongTexts| ==> MarkedRate(page.strongTexts[j]).None?)
  {
    FirstSuccessOrder(DolarStrategy(page.textNodes), page.rateDivs, SaneRate, page.strongTexts, MarkedRate);
  }

  // fetch_alternative_rates

  const EXCHANGERATE_API := "exchangerate_api"
  const DOLARTODAY := "dolartoday"

  /** Each API that answered with the member it is asked for contributes that
      member's value, whatever it is (null and zero included); nothing else
      is in the result. */
  method FetchAlternativeRates(exchangeReply: ApiReply, dolarReply: ApiReply)
    returns (rates: map<string, Option<real>>)
    ensures EXCHANGERATE_API in rates <==> HasField(exchangeReply, "rates", "VES")
    ensures EXCHANGERATE_API in rates ==> rates[EXCHANGERATE_API] == FieldValue(exchangeReply, "rates", "VES")
    ensures DOLARTODAY in rates <==> HasField(dolarReply, "USD", "dolartoday")
    ensures DOLARTODAY in rates ==> rates[DOLARTODAY] == FieldValue(dolarReply, "USD", "dolartoday")
    ensures rates.Keys <= {EXCHANGERATE_API, DOLARTODAY}
  {
    rates := map[];
    if HasField(exchangeReply, "rates", "VES") {
      rates := rates[EXCHANGERATE_API := FieldValue(exchangeReply, "rates", "VES")];
    }
    if HasField(dolarReply, "USD", "dolartoday") {
      rates := rates[DOLARTODAY := FieldValue(dolarReply, "USD", "dolartoday")];
    }
  }

  // update_rate_file

  const BCV_OFFICIAL := "bcv_official"
  /** `previous_data['history'][-30:]` */
  const HISTORY_KEEP: nat := 30

  /** The `rates` member of `rates.json`: the scraped rate and the label
      "BCV Official" when it is truthy; otherwise ExchangeRate-API substitutes
      when it answered, and the label is "Alternative" when nothing does. */
  method SelectRate(bcvRate: Option<real>, altRates: map<string, Option<real>>, lastUpdate: string)
    returns (rates: RateSnapshot)
    ensures rates.lastUpdate == lastUpdate
    ensures rates.source == "BCV Official" <==> Truthy(bcvRate)
    ensures Truthy(bcvRate) ==> rates.bcv == bcvRate
    ensures !Truthy(bcvRate) && EXCHANGERATE_API in altRates ==>
      rates.bcv == altRates[EXCHANGERATE_API] && rates.source == "ExchangeRate-API"
    ensures !Truthy(bcvRate) && EXCHANGERATE_API !in altRates ==>
      rates.bcv == bcvRate && rates.source == "Alternative"
  {
    rates := RateSnapshot(bcvRate, if Truthy(bcvRate) then "BCV Official" else "Alternative", lastUpdate);
    if !Truthy(bcvRate) && |altRates| > 0 {
      if EXCHANGERATE_API in altRates {
        rates := rates.(bcv := altRates[EXCHANGERATE_API], source := "ExchangeRate-API");
      }
    }
  }

  /** The part of `update_rate_file` after the two fetches: select the
      effective rate and its label, and build both files. The clock is read
      three times (`timestamp`, `date`, `last_update`); `prior` is the history
      of the previous `rates.json`, or None when the file is missing,
      unreadable or has no `history`. `all_rates` is the dict display
      `{'bcv_official': bcv_rate, **alt_rates}`, whose later entries win. */
  method BuildRateFiles(bcvRate: Option<real>, altRates: map<string, Option<real>>,
                        timestamp: string, date: string, lastUpdate: string,
                        prior: Option<seq<RateRecord>>)
    returns (data: RatesFile, current: CurrentRate)
    ensures data.timestamp == timestamp && data.date == date && data.rates.lastUpdate == lastUpdate
    ensures data.rates.source == "BCV Official" <==> Truthy(bcvRate)
    ensures Truthy(bcvRate) ==> data.rates.bcv == bcvRate
    ensures !Truthy(bcvRate) && EXCHANGERATE_API in altRates ==>
      data.rates.bcv == altRates[EXCHANGERATE_API] && data.rates.source == "ExchangeRate-API"
    ensures !Truthy(bcvRate) && EXCHANGERATE_API !in altRates ==>
      data.rates.bcv == bcvRate && data.rates.source == "Alternative"
    ensures data.allRates.Keys == altRates.Keys + {BCV_OFFICIAL}
    ensures forall k :: k in altRates ==> data.allRates[k] == altRates[k]
    ensures BCV_OFFICIAL !in altRates ==> data.allRates[BCV_OFFICIAL] == bcvRate
    ensures data.history == NextHistory(prior, HISTORY_KEEP, RateRecord(date, data.rates.bcv, timestamp))
    ensures |data.history| <= HISTORY_KEEP + 1
    ensures data.history[|data.history| - 1].bcv == data.rates.bcv
    ensures current == CurrentRate(data.rates.bcv, data.timestamp, data.date)
  {
    var rates := SelectRate(bcvRate, altRates, lastUpdate);
    var allRates := map[BCV_OFFICIAL := bcvRate] + altRates;
    var record := RateRecord(date, if Truthy(bcvRate) then bcvRate else rates.bcv, timestamp);
    var history := NextHistory(prior, HISTORY_KEEP, record);
    NextHistoryShape(prior, HISTORY_KEEP, record);
    data := RatesFile(timestamp, date, rates, allRates, history);
    current := CurrentRate(data.rates.bcv, data.timestamp, data.date);
  }

  /** One run of `update_rate_file`: the scrape, the two API fetches, then
      the files. Stated over the page and the replies: the scraped rate wins
      when truthy, ExchangeRate-API substitutes when it answered, DolarToday
      never does, and `all_rates` lists exactly the sources that answered. */
  method UpdateRateFile(response: Option<Page>, exchangeReply: ApiReply, dolarReply: ApiReply,
                        timestamp: string, date: string, lastUpdate: string,
                        prior: Option<seq<RateRecord>>)
    returns (data: RatesFile, current: CurrentRate)
    ensures data.timestamp == timestamp && data.date == date && data.rates.lastUpdate == lastUpdate
    ensures data.rates.source == "BCV Official" <==> Truthy(BcvRate(response))
    ensures Truthy(BcvRate(response)) ==> data.rates.bcv == BcvRate(response)
    ensures !Truthy(BcvRate(response)) && HasField(exchangeReply, "rates", "VES") ==>
      data.rates.bcv == FieldValue(exchangeReply, "rates", "VES") && data.rates.source == "ExchangeRate-API"
    ensures !Truthy(BcvRate(response)) && !HasField(exchangeReply, "rates", "VES") ==>
      data.rates.bcv == BcvRate(response) && data.rates.source == "Alternative"
    ensures BCV_OFFICIAL in data.allRates && data.allRates[BCV_OFFICIAL] == BcvRate(response)
    ensures EXCHANGERATE_API in data.allRates <==> HasField(exchangeReply, "rates", "VES")
    ensures EXCHANGERATE_API in data.allRates ==>
      data.allRates[EXCHANGERATE_API] == FieldValue(exchangeReply, "rates", "VES")
    ensures DOLARTODAY in data.allRates <==> HasField(dolarReply, "USD", "dolartoday")
    ensures DOLARTODAY in data.allRates ==>
      data.allRates[DOLARTODAY] == FieldValue(dolarReply, "USD", "dolartoday")
    ensures data.allRates.Keys <= {BCV_OFFICIAL, EXCHANGERATE_API, DOLARTODAY}
    ensures data.history == NextHistory(prior, HISTORY_KEEP, RateRecord(date, data.rates.bcv, timestamp))
    ensures |data.history| <= HISTORY_KEEP + 1
    ensures current == CurrentRate(data.rates.bcv, data.timestamp, data.date)
  {
    var bcvRate := FetchBcvRate(response);
    var altRates := FetchAlternativeRates(exchangeReply, dolarReply);
    assert BCV_OFFICIAL != EXCHANGERATE_API && BCV_OFFICIAL != DOLARTODAY;
    data, current := BuildRateFiles(bcvRate, altRates, timestamp, date, lastUpdate, prior);
  }

  /** A prior history of 30 entries or more plus one run gives 31 entries,
      the new record last: the script's cut to 30 happens before the append. */
  lemma HistoryOfThirtyGrowsToThirtyOne(prior: seq<RateRecord>, rec: RateRecord)
    requires |prior| >= 30
    ensures |NextHistory(Some(prior), HISTORY_KEEP, rec)| == 31
    ensures NextHistory(Some(prior), HISTORY_KEEP, rec)[30] == rec
  {
    NextHistoryShape(Some(prior), HISTORY_KEEP, rec);
  }

  /** Once 31 runs or more have written the file, it holds exactly the last
      31 records. */
  lemma PythonSteadyHistory(h: seq<RateRecord>, recs: seq<RateRecord>)
    requires |recs| >= HISTORY_KEEP + 1
    ensures |Replay(h, recs, HISTORY_KEEP)| == 31
    ensures Replay(h, recs, HISTORY_KEEP) == recs[|recs| - 31..]
  {
    SteadyHistory(h, recs, HISTORY_KEEP);
  }

}
