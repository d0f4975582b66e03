# Crypto Analyzer Pro — result-selection core

The server of Crypto Analyzer Pro fetches coin-market records from the
CoinGecko markets API, and its analysis endpoint returns the coins that sit
deep below their all-time high (ATH). This project models the pure,
sequential part of that endpoint in Dafny and proves properties of it:

- **De-duplication by id** (`get_all_cryptos`). The first record with each
  `id` is kept, in input order. Reading `crypto['id']` is not guarded, so a
  record without a usable id aborts the step with a `KeyError` or `TypeError`.
  This is modelled as a `Result` that carries the index and the kind of the
  exception (module `Ids`).
- **Drawdown arithmetic** (`calculate_deviation`). It gives the percentage
  deviation of the current price from the ATH, and 0 when the ATH is zero or
  a price is missing (module `Deviation`).
- **Filtering and truncation** (`filter_cryptocurrencies`). Empty records and
  records without positive prices are dropped. The drawdown is the record's
  own `ath_change_percentage`, or the computed deviation when that is null.
  The ATH market cap is estimated, and the three threshold conditions are
  checked. Kept records are projected onto the output fields, and the list is
  cut with Python's `filtered[:max_results]` (module `Selection`). A record is
  skipped either by the tests at main.py:116-125 (an empty record, a null,
  zero, negative or empty price or ATH) or by a caught exception (a
  non-numeric price, market cap or drawdown, a non-string symbol, or a
  truthy non-dict entry).
- **The pipeline** of `analyze_cryptocurrencies`: de-duplicate, short-cut
  on an empty list, then filter (module `Analysis`).
- **Parameters.** The request body `FilterParams` is modelled with the
  defaults as declared (module `Params`).

A record is a decoded JSON value (`Json.Json`), read the way Python reads a
dict. `d.get(k, default)` returns a present key's value even when that value
is null. Truthiness is Python's. Python bools count as the numbers 1 and 0.
Prices and caps are exact `real`s. `round(x, 2)` is exact half-to-even
rounding to hundredths (`Rounding.Round2`). `.upper()` maps the ASCII letters
(`Text.Upper`).

`Selection.Qualify` is one iteration of the filter loop. `Selection.Kept` is
the list the loop builds, `Selection.Filter` is that list after the slice,
`Ids.Dedup` is the de-duplication loop and `Analysis.Analyze` is the
pipeline. These functions carry no contract of their own. The lemmas below
state their properties, and the two methods restate the Python loops
imperatively and are proved equal to them.

`FilterParams` declares no constraint on `max_results` or on the order of
the two drawdown bounds, and the model adds none. A negative `max_results`
drops items from the end, and inverted drawdown bounds select nothing. Both
behaviours are modelled.

## Model

| member | source | states |
|---|---|---|
| `Deviation.CalculateDeviation` | main.py:77-81 | 0 when the ATH is 0 or a price is missing; otherwise `ath + ath * r / 100 == current`; for `0 < current <= ath` the result lies in `[-100, 0]`; for positive prices it exceeds -100, is negative iff current is below the ATH and is 0 iff they are equal |
| `Rounding.Round2` | main.py:159-161 | `round(x, 2)` yields a whole number of hundredths within 0.005 of `x`, leaves hundredths unchanged and resolves ties to the even hundredth |
| `Rounding.Round2Negate` | main.py:159-160 | rounding commutes with negation, so the rounded positive drawdown is the magnitude of the rounded drawdown |
| `Seqs.PyPrefix` | main.py:174 | `s[:k]` is a prefix of `s`, of length `min(k, len(s))` for `k >= 0` and `max(0, len(s) + k)` for negative `k` |
| `Ids.DedupFailsAtFirstBadRecord` | main.py:103-106 | the de-duplication fails iff some record has no hashable `id`; the failure names the first such record and the exception it raises (`KeyError` for a missing key, `TypeError` otherwise) |
| `Ids.DedupKeepsEveryIdOnce` | main.py:100-108 | on success the output ids are pairwise distinct, and the output holds exactly the ids of the input |
| `Ids.DedupKeepsFirstOccurrences` | main.py:100-108 | on success the output is the records at strictly increasing positions, each the first record with its id, and every first occurrence appears |
| `Ids.DedupFailureExtends` | main.py:103-104 | once a prefix of the records raises, the whole loop raises the same exception |
| `Ids.DedupById` | main.py:100-108 | the loop with its `seen_ids` set computes the de-duplication, including the exception |
| `Selection.QualifyIffCriteria` | main.py:114-153 | a record is kept iff it is a non-empty dict with positive numeric price and ATH, a numeric market cap, a null or numeric drawdown, a string or missing symbol, and it meets all three thresholds |
| `Selection.QualifyCopies` | main.py:151-168 | a kept record is a non-empty dict, and its item copies name, prices, market cap, ATH date, rank, id, 24h changes, image and last update with their `.get` defaults |
| `Selection.QualifyAdmissible` | main.py:119-161 | a kept item has positive prices and a numeric cap; its estimated ATH cap times the price equals the ATH times the cap; it meets both cap floors; its positive drawdown is the magnitude of its drawdown and lies within 0.005 of the drawdown bounds; its price deviation is within 0.005 of the computed deviation |
| `Selection.QualifyDrawdownSource` | main.py:128-132 | the drawdown is the record's rounded `ath_change_percentage` when it is not null; otherwise it equals the price deviation |
| `Selection.NonNumericMarketCapSkipped` | main.py:135 | a market cap that is present but null or not a number skips the record |
| `Selection.InvertedBoundsRejectRecord` | main.py:147 | with the minimum drawdown above the maximum, no record is kept |
| `Selection.KeptIsOrderedSubsequence` | main.py:112-169 | the loop's list is the items of the qualifying records at strictly increasing input positions, and every qualifying position is among them |
| `Selection.FilterIsBoundedPrefix` | main.py:112-174 | for `max_results >= 0` the result is the first `min(max_results, n)` kept items, so it has at most `max_results` items; no qualifying record is passed over before a returned one; a shorter result holds every qualifying record |
| `Selection.FilterOutputAdmissible` | main.py:143-174 | every returned item, for any bound, satisfies the admissibility conditions above |
| `Selection.NonNumericMarketCapNeverReturned` | main.py:171-172 | a record whose market cap is null or not a number is never the source of a returned item |
| `Selection.InvertedBoundsKeepNothing` | main.py:144-148 | with inverted drawdown bounds the loop keeps nothing, for every input |
| `Selection.DefaultsSelectNothing` | main.py:17-22 | under the declared defaults (minimum drawdown 90, maximum 50) the filter returns an empty list for every input |
| `Selection.IntendedDefaultsSelectDeepDrawdown` | main.py:17-22 | with the drawdown bounds swapped to 50 and 90, the defaults are consistent, and a record 90% below its ATH is returned; the declared defaults return nothing for it |
| `Selection.FilterCryptocurrencies` | main.py:110-174 | the loop that appends to `filtered` and slices at the end computes the filter |
| `Analysis.AnalyzeFailsOnlyWithoutIds` | main.py:176-191 | the analysis fails iff some fetched record has no usable id |
| `Analysis.ItemCarriesRecordId` | main.py:163 | a kept item's `id` is the record's id value |
| `Analysis.AnalyzeReturnsDistinctIds` | main.py:176-191 | the items of a successful analysis carry pairwise-distinct ids |

## Left out

- `fetch_data` (main.py:47-75) is not modelled. It is HTTP I/O with timeouts, rate-limit sleeps and a retry on status 429.
- The page loop of `get_all_cryptos` (main.py:88-98) is not modelled. It is network orchestration; the model starts from the concatenated records.
- The FastAPI app, CORS, static mounts and route handlers (main.py:25-38, 197-236) are not modelled. They are framework wiring, and `processing_time` and the timestamps read the clock.
- Console logging (`print`) is not modelled.
- The browser-side controller (sorting, input formatting, validation, rendering, status polling) is not modelled. Its source is not part of this model.
- Pydantic's parsing and coercion of the request body is not modelled. Parameters arrive already typed.
- Rounding.Round2: rounds the exact real value. It does not model binary floating point, where `round(2.675, 2)` gives 2.67.
- Filter: integers beyond the float range are not modelled. In the source, a JSON integer `market_cap` or `ath` too large for a float (say 400 digits) makes `ath_price / current_price` or the multiplication at main.py:135 raise `OverflowError`. That exception is not in the caught tuple at main.py:171, so the filter raises and the route answers 500. The model treats every number as an exact real and keeps or skips such a record.
- NaN and infinity are not modelled. This affects comparisons, hashing of ids and `round`.
- Text.Upper: maps only the ASCII letters. Python's `str.upper` also maps other Unicode letters.
- The output dict's key order and its JSON serialisation are not modelled.

## Findings

| source | as written | input that shows it | evidently intended | confidence | as-written member | corrected member |
|---|---|---|---|---|---|---|
| main.py:19-20 | `max_drawdown = 50`, `min_drawdown = 90`, so `90 <= d <= 50` holds for no drawdown | a request that omits both drawdown fields, with the record `DeepDrawdownRecord` (price 1, ATH 10, cap 1 000 000) | `min_drawdown = 50`, `max_drawdown = 90` | medium, not executed | `Selection.DefaultsSelectNothing` | `Selection.IntendedDefaultsSelectDeepDrawdown` |
