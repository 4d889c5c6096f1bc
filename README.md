# currencycalc rate updaters, modelled in Dafny

The currency calculator reads a bolívar/dollar rate from `data/rates.json` and
`data/current_rate.json`. Two interchangeable scripts write those files:
`scripts/update_rate.py` (Python) and `update_rate_nodejs.js` (Node). Both
scrape the Banco Central de Venezuela home page and query two JSON rate APIs.
They then pick an effective rate, label where it came from, and rewrite both
files with a bounded history.

This project models the decision logic of both scripts:

- the text patterns that pull a decimal rate out of the page;
- the order in which the extraction strategies are tried;
- the field checks applied to the API replies;
- the chain that selects the rate and its label;
- the shape of both output files;
- how much history is kept.

The modules are:

- `Wrappers` (`wrappers.dfy`): the `Option` type.
- `Scan` (`scan.dfy`): the regular expressions, as executable functions proved against declarative reference predicates.
  - `(\d+)[,.](\d+)` and `(\d+),(\d+)` under Python's `re.search` (leftmost start, greedy groups).
  - `KW.*?(\d+)[,.](\d+)` under JavaScript's `String.prototype.match` with the `i` flag (leftmost keyword, lazy gap that does not cross a line terminator).
  - The exact value `g1.g2` that both `float(...)` and `parseFloat(...)` read.
- `RateFile` (`rate_file.dfy`): both JSON files, the API replies, truthiness, and the history window. This includes lemmas about many successive runs.
- `PyUpdater` (`py_updater.dfy`): `fetch_bcv_rate` (three strategies), `fetch_alternative_rates` and `update_rate_file`.
- `NodeUpdater` (`node_updater.dfy`): `fetchExchangeRateAPI`, `fetchDolarToday`, `fetchBCVRate` and `updateRates`.

How the outside world enters the model:

- Each network fetch is a parameter. In Python the BCV page is `None` when the request or its status check failed, and otherwise the parsed page. In Node, `fetchUrl` checks no status, so `Some(body)` stands for every completed response, error pages included, and `None` for a request that failed outright. Each API reply is `NoReply` or a JSON document.
- The history read from the previous `rates.json` is `None` when the file is missing, unreadable, or has no `history` member.
- Python's three clock reads are three independent string parameters. Node's single `new Date()` is one string `now`.
- A rate is exact: a `real`, or absent.

The two scripts bound their history differently, and the model follows each
as written. The Node script's comment says "Keep last 29 entries": it keeps 29
old entries (`slice(-29)`) and appends one, so the file holds at most 30. The
Python script's comment says "Keep last 30 days": it keeps 30 old entries
(`[-30:]`) and then appends one, so the file holds up to 31
(`PyUpdater.HistoryOfThirtyGrowsToThirtyOne`).

## Model

| member | source | states |
|---|---|---|
| Scan.RunEnd | scripts/update_rate.py:54 | a greedy `\d+` from position i ends at the first non-digit or at the end, and every character it covers is a digit |
| Scan.MatchAt | scripts/update_rate.py:54 | a match found at start q begins at q, is a well-formed digits-separator-digits match, and satisfies the reference predicate `Candidate`; that its groups are maximal is proved in `Scan.MatchAtIsGreedy` and `Scan.MatchAtFracIsMaximal` |
| Scan.MatchAtIsGreedy | scripts/update_rate.py:44 | no match at q exactly when no candidate starts at q; when there is one, every candidate at q has a first group of the same length and a second group no longer (backtracking never yields another first group) |
| Scan.MatchAtFracIsMaximal | scripts/update_rate.py:54 | the second group of a match is followed by a non-digit or the end of the text |
| Scan.Search | scripts/update_rate.py:54 | `re.search` of the decimal pattern over the whole text; its meaning (leftmost, greedy, none only without a candidate) is proved in `Scan.SearchIsLeftmost` |
| Scan.SearchFrom | scripts/update_rate.py:54 | the result from p is the match at its own start, and no position from p up to that start has a match |
| Scan.SearchIsLeftmost | scripts/update_rate.py:44 | `re.search` finds nothing exactly when no candidate exists anywhere; otherwise it returns the candidate with the smallest start, with greedy groups |
| Scan.SearchWholeIsDigitRun | scripts/update_rate.py:54 | the first group of the leftmost match is a whole run of digits: it starts the text or follows a non-digit |
| Scan.DigitsValue | scripts/update_rate.py:46 | the decimal value of n digits is below 10^n |
| Scan.Value | scripts/update_rate.py:46 | the number `float(f"{g1}.{g2}")` reads, exactly: g1 plus g2 divided by 10 to the number of fraction digits; bounded in `Scan.ValueBounds` |
| Scan.ValueBounds | scripts/update_rate.py:56-57 | the value `g1.g2` lies in [g1, g1 + 1), so the range check of the layout strategy constrains g1 |
| Scan.FractionDigitsExample | scripts/update_rate.py:46 | the fraction keeps its leading zeros: "36,50" and "36,5" both read as 36.5, "36,05" as 36.05 |
| Scan.Lower | scripts/update_rate.py:38 | the case folding of `re.IGNORECASE` and of the `i` flag, for the letters the patterns use: ASCII capitals and Ó fold to lower case, every other character to itself |
| Scan.DolarAt | update_rate_nodejs.js:66 | `d[oó]lar` matched without regard to case at a position: five characters that fold to d, o or ó, l, a, r |
| Scan.MentionsDolar | scripts/update_rate.py:38 | the text filter `re.compile(r'[Dd][oó]lar', re.IGNORECASE)`: the text holds `d[oó]lar`, ignoring case, at some position |
| Scan.UsdAt | update_rate_nodejs.js:60 | `USD` matched without regard to case at a position: three characters that fold to u, s, d |
| Scan.OccursAt | scripts/update_rate.py:64 | the substring `sub` starts at index i of the text |
| Scan.Contains | scripts/update_rate.py:64 | Python's `sub in text`: the substring occurs at some index |
| Scan.IsLineTerminator | update_rate_nodejs.js:60 | the characters JavaScript's `.` does not match: line feed, carriage return, U+2028 and U+2029 |
| Scan.LazyMatchFrom | update_rate_nodejs.js:60 | `.*?` stops at the first position, reachable without crossing a line terminator, where the groups match; no earlier such position matches |
| Scan.KeywordStartFrom | update_rate_nodejs.js:60 | the first keyword position (case-insensitive) whose tail matches; no earlier position's tail matches |
| Scan.KeywordSearch | update_rate_nodejs.js:60 | a match of the keyword pattern carries well-formed groups |
| Scan.KeywordSearchIsLeftmostLazy | update_rate_nodejs.js:60-68 | `html.match` finds nothing exactly when no keyword candidate exists; otherwise its keyword is the leftmost candidate's, its gap the shortest from there, and its groups greedy |
| Scan.CandidateIsFound | update_rate_nodejs.js:60 | for every keyword candidate the search finds a match, its keyword no later than the candidate's, and at that same keyword its groups start no later |
| Scan.FoundIsCandidate | update_rate_nodejs.js:60 | what the keyword search returns is a keyword candidate whose groups are the greedy match at their start |
| RateFile.HasField | scripts/update_rate.py:87 | the presence test `'rates' in data and 'VES' in data['rates']`: the reply exists and has member `inner` inside member `outer`; in Node the truthiness half of `json.rates && json.rates.VES` is added by `RateFile.Truthy` |
| RateFile.FieldValue | scripts/update_rate.py:88 | the member `data[outer][inner]` of a reply that has it, null included |
| RateFile.Truthy | scripts/update_rate.py:126 | Python's and JavaScript's truthiness of a rate that is a number or null: false for null and for zero, true otherwise |
| RateFile.KeepLast | scripts/update_rate.py:142 | `h[-n:]` and `h.slice(-n)` are the last min(length of h, n) entries of h, in order |
| RateFile.NextHistory | scripts/update_rate.py:137-153 | the history written by one run: the kept tail of the prior history, or nothing when the prior file was unreadable, then the new record; its shape is proved in `RateFile.NextHistoryShape` |
| RateFile.NextHistoryShape | scripts/update_rate.py:137-153 | the new history is the last min(N, keep) prior entries in order, then the new record; at most keep + 1 entries; an unread prior file leaves only the new record |
| RateFile.KeepLastAbsorbs | scripts/update_rate.py:142 | cutting before appending and cutting again equals cutting once |
| RateFile.KeepLastAbsorbsAt | scripts/update_rate.py:142 | the two windows of the absorption law agree at every index |
| RateFile.AppendIsWindow | update_rate_nodejs.js:124-136 | keeping `keep` entries and then appending equals keeping the last keep + 1 of prior-plus-record |
| RateFile.WindowStep | update_rate_nodejs.js:124-136 | one run followed by the remaining records is, as a window, the same as all records appended to the prior history |
| RateFile.ReplayKeepsMostRecent | update_rate_nodejs.js:119-136 | after one run or more, each reading the previous file, the file holds the last keep + 1 of all records ever written, in order |
| RateFile.SteadyHistory | scripts/update_rate.py:137-153 | once keep + 1 runs have happened, the history is exactly the last keep + 1 records, whatever the file first held |
| RateFile.WindowOfLongTail | scripts/update_rate.py:142-153 | when at least n records were appended, the last n entries are the last n records, whatever came before |
| RateFile.DropAcrossAppend | scripts/update_rate.py:142 | dropping the whole prior history plus k records from prior-plus-records leaves the records from k on |
| PyUpdater.FindDolarNode | scripts/update_rate.py:38 | `soup.find(text=...)` returns the first text node that mentions `[Dd][oó]lar` (ignoring case), and none before it does |
| PyUpdater.DolarStrategy | scripts/update_rate.py:37-47 | method 1: the first comma decimal of the parent text of the first node mentioning the dollar; its meaning is proved in `PyUpdater.DolarStrategyReadsFirstMention` |
| PyUpdater.DolarStrategyReadsFirstMention | scripts/update_rate.py:37-47 | method 1 looks only at the parent text of the first mentioning node; it fails exactly when that text has no digits-comma-digits; a dot never separates |
| PyUpdater.DolarStrategyNeedsMention | scripts/update_rate.py:38-39 | with no node mentioning the dollar, method 1 yields nothing |
| PyUpdater.SaneRate | scripts/update_rate.py:54-58 | a layout block yields a rate exactly when its first decimal (`,` or `.`) lies strictly between 30 and 100, and the rate is then that decimal's value |
| PyUpdater.SaneRateWholePart | scripts/update_rate.py:57 | an accepted layout rate has an integer part between 30 and 99 |
| PyUpdater.MarkedRate | scripts/update_rate.py:63-68 | a `strong` text yields a rate only when it contains `USD` or `$` and has a decimal, and then it yields its first decimal's value; with no decimal it yields nothing |
| PyUpdater.FirstRate | scripts/update_rate.py:51-58 | the early-return loop over blocks: the rate of the first block that yields one, else nothing; characterised by the two lemmas below |
| PyUpdater.FirstRateIsFirst | scripts/update_rate.py:51-58 | the loop returns the rate of the first block that yields one |
| PyUpdater.FirstRateFails | scripts/update_rate.py:62-70 | the loop falls through exactly when no block yields a rate |
| PyUpdater.LayoutStrategy | scripts/update_rate.py:49-58 | the loop over the rate `div`s returns the first in-range decimal, as `FirstRate` with `SaneRate` |
| PyUpdater.MarkedStrategy | scripts/update_rate.py:60-68 | the loop over the `strong` texts returns the first marked decimal, as `FirstRate` with `MarkedRate` |
| PyUpdater.FirstSuccess | scripts/update_rate.py:37-70 | the fall-through of the three methods: the first result when present, else the first scoring block of the layout list, else of the `strong` list |
| PyUpdater.BcvRate | scripts/update_rate.py:14-74 | what `fetch_bcv_rate` returns: nothing when the request failed, else the fall-through of methods 1, 2 and 3 |
| PyUpdater.FetchBcvRate | scripts/update_rate.py:14-74 | the scraper returns nothing on a failed request, else the result of the strategies in order |
| PyUpdater.FirstSuccessOrder | scripts/update_rate.py:37-70 | for any first result and any two scoring functions: the first result wins when present; otherwise the first scoring block of the second list, then of the third, each only after every earlier block failed; nothing exactly when all fail |
| PyUpdater.BcvRateIsFirstSuccess | scripts/update_rate.py:37-70 | method 1 wins when it succeeds; method 2 is consulted only after method 1 fails, method 3 only after both fail; no rate exactly when all three fail |
| PyUpdater.FetchAlternativeRates | scripts/update_rate.py:76-102 | each key is present exactly when its API answered with the member it was asked for, holding that member's value even if it is null or zero; no other key appears |
| PyUpdater.SelectRate | scripts/update_rate.py:115-129 | the label is "BCV Official" iff the scraped rate is truthy, and the rate is then the scraped one; otherwise ExchangeRate-API substitutes (label "ExchangeRate-API") when its key is present, and the falsy scraped rate stays with label "Alternative" when it is not |
| PyUpdater.BuildRateFiles | scripts/update_rate.py:114-171 | the selection above; `all_rates` has the alternatives' keys plus `bcv_official`, each alternative keeps its value, and the scraped rate survives under `bcv_official` unless an alternative overrides it; the history is the last 30 prior entries then the effective rate's record; `current_rate.json` copies the effective rate, timestamp and date |
| PyUpdater.UpdateRateFile | scripts/update_rate.py:104-173 | the label is "BCV Official" iff the scraped rate is truthy; otherwise ExchangeRate-API substitutes when present, and DolarToday never does; `all_rates` holds the scraped rate under `bcv_official` plus the alternatives; the history is the last 30 prior entries then the record of the effective rate; `current_rate.json` copies the effective rate, timestamp and date |
| PyUpdater.HistoryOfThirtyGrowsToThirtyOne | scripts/update_rate.py:142-153 | a prior history of 30 or more entries becomes 31 entries, the new record last |
| PyUpdater.PythonSteadyHistory | scripts/update_rate.py:137-153 | after 31 runs or more the Python history is exactly the last 31 records |
| NodeUpdater.JsOr | update_rate_nodejs.js:88 | JavaScript's logical or on two rates: the first operand when it is truthy, else the second; its use in the chain is proved in `NodeUpdater.FinalRate` |
| NodeUpdater.FetchExchangeRateApi | update_rate_nodejs.js:26-37 | a rate is returned exactly when `rates.VES` exists and is truthy, and it is that value; otherwise null |
| NodeUpdater.FetchDolarToday | update_rate_nodejs.js:40-51 | a rate is returned exactly when `USD.promedio_real` exists and is truthy, and it is that value; otherwise null |
| NodeUpdater.FetchBcvRate | update_rate_nodejs.js:54-74 | `fetchBCVRate`: the value of the USD pattern's match, else of the dólar pattern's, else null; its meaning is proved in `NodeUpdater.FetchBcvRatePrefersUsd` |
| NodeUpdater.FetchBcvRatePrefersUsd | update_rate_nodejs.js:54-74 | the USD pattern decides whenever it matches; the dólar pattern is used only when the USD pattern matches nowhere; null exactly when neither matches |
| NodeUpdater.FinalRate | update_rate_nodejs.js:88 | the chosen rate is never zero and is one of the three operands or 40.50 |
| NodeUpdater.Source | update_rate_nodejs.js:89-91 | the ternary chain that names the source; tied to the rate in `NodeUpdater.SourceNamesFinalRate` |
| NodeUpdater.SourceNamesFinalRate | update_rate_nodejs.js:88-91 | each label holds exactly in the case where its operand is the first truthy one, and the rate is then that operand (40.50 for "Fallback") |
| NodeUpdater.DatePart | update_rate_nodejs.js:99 | `split('T')[0]` is the prefix before the first `T`, or the whole text when there is none |
| NodeUpdater.UpdateRates | update_rate_nodejs.js:77-136 | both records carry the chain's rate, its label and the single `now`; `all_rates` holds exactly the three raw fetches; the history is the last 29 prior entries then the new record; at most 30 entries; the written rate is always truthy |
| NodeUpdater.HistoryOfThirtyStaysThirty | update_rate_nodejs.js:124-136 | a prior history of 30 entries stays at 30, the new record last |
| NodeUpdater.NodeSteadyHistory | update_rate_nodejs.js:119-136 | after 30 runs or more the Node history is exactly the last 30 records |

## Left out

- HTTP requests, timeouts, headers and status checks are left out. Each fetch is a parameter: a failure is `None`/`NoReply`, and a success is the page or the reply.
- HTML parsing with BeautifulSoup is left out. The Python page is given as the text nodes in document order, each with its parent's text, plus the texts of the selected `div`s and of the `strong` tags.
- `.strip()` on those texts is not modelled. It removes only outer whitespace, and no pattern looks at outer whitespace.
- JSON parsing is left out. A reply is a two-level object whose leaf members are numbers or null. Strings, booleans, arrays, NaN and a top-level non-object are not modelled. A prior file is modelled only as its `history` list, or absent.
- Writing both files, the `data` directory creation, and all console output (`print`, `console.log`, `toFixed`) are left out. They do not affect the values computed.
- Clocks are parameters. The relation between `timestamp` and `date` in Python is not modelled, because they come from two separate clock reads.
- Floating point is left out. `float` and `parseFloat` are modelled as the exact decimal value `g1.g2`, so rounding of very long digit strings is not captured.
- `\d` is modelled as ASCII digits. Python's and JavaScript's case-insensitive matching is modelled for ASCII letters and for ó/Ó, the only non-ASCII letter in the patterns.
- `Promise.all` concurrency is not modelled. The three Node fetches are independent, so they are modelled one after another.
- The top-level exception handlers that exit with status 1 are left out.
- `generate_ios_icons.py` is not part of this model. It delegates entirely to an image library.
