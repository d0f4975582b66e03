/**
  `CryptoAnalyzer.filter_cryptocurrencies`: each market record is read,
  checked against the request's thresholds and projected onto the fields the
  endpoint returns; the survivors keep their input order and the list is cut
  to `max_results`. Any exception the loop catches skips the record.
 */
module Selection {
  import opened Wrappers
  import opened Json
  import opened Seqs
  import opened Text
  import opened Rounding
  import opened Deviation
  import opened Params

  /** One item of the endpoint's result list. Pass-through fields keep their raw JSON value. */
  datatype Summary = Summary(
    name: Json,
    symbol: string,
    currentPrice: Json,
    athPrice: Json,
    currentMarketCap: Json,
    athDate: Json,
    estimatedAthMarketCap: real,
    drawdownPercent: real,
    drawdownPositive: real,
    priceDeviation: real,
    rank: Json,
    id: Json,
    priceChange24h: Json,
    priceChangePercentage24h: Json,
    image: Json,
    lastUpdated: Json)

  function Abs(x: real): real {
    if x < 0.0 then -x else x
  }

  /**
    A price that survives `not v or v <= 0`: falsy values are skipped by the
    test, non-numbers by the `TypeError` of the comparison.
   */
  function PositiveNumber(v: Json): Option<real> {
    match AsNumber(v)
    case Some(x) => if x > 0.0 then Some(x) else None
    case None => None
  }

  /** `.upper()` on the symbol; anything but a string raises `AttributeError`. */
  function SymbolOf(v: Json): Option<string> {
    match v
    case Str(s) => Some(Upper(s))
    case _ => None
  }

  /** The drawdown used: the record's own percentage when not null, else the computed deviation. */
  function ChosenDrawdown(change: Json, price: real, ath: real): Json {
    if change.Null? then Num(CalculateDeviation(Some(price), Some(ath))) else change
  }

  /** The record-level conditions, stated as one conjunction over the raw record. */
  predicate MeetsCriteria(e: Json, p: FilterParams) {
    && e.Obj? && |e.fields| > 0
    && var f := e.fields;
    && var price := AsNumber(Get(f, "current_price", Num(0.0)));
    && var ath := AsNumber(Get(f, "ath", Num(0.0)));
    && var cap := AsNumber(Get(f, "market_cap", Num(0.0)));
    && var change := Get(f, "ath_change_percentage", Null);
    && price.Some? && ath.Some? && cap.Some? && price.value > 0.0 && ath.value > 0.0
    && (change.Null? || AsNumber(change).Some?)
    && var drawdown := if change.Null? then CalculateDeviation(price, ath) else AsNumber(change).value;
    && ath.value / price.value * cap.value >= p.minAthMarketCap
    && cap.value >= p.minCurrentMarketCap
    && p.minDrawdown <= Abs(drawdown) <= p.maxDrawdown
    && Get(f, "symbol", Str("N/A")).Str?
  }

  /** What every returned item satisfies, read off the item alone. */
  ghost predicate Admissible(s: Summary, p: FilterParams) {
    && PositiveNumber(s.currentPrice).Some?
    && PositiveNumber(s.athPrice).Some?
    && AsNumber(s.currentMarketCap).Some?
    && var price := PositiveNumber(s.currentPrice).value;
    && var ath := PositiveNumber(s.athPrice).value;
    && var cap := AsNumber(s.currentMarketCap).value;
    && s.estimatedAthMarketCap * price == ath * cap
    && s.estimatedAthMarketCap >= p.minAthMarketCap
    && cap >= p.minCurrentMarketCap
    && p.minDrawdown - 0.005 <= s.drawdownPositive <= p.maxDrawdown + 0.005
    && s.drawdownPositive == Abs(s.drawdownPercent)
    && -0.005 <= s.priceDeviation - CalculateDeviation(Some(price), Some(ath)) <= 0.005
  }

  /** The fields copied verbatim (or with their `.get` default) from the record. */
  ghost predicate Copied(f: map<string, Json>, s: Summary) {
    && s.name == Get(f, "name", Str("N/A"))
    && s.currentPrice == Get(f, "current_price", Num(0.0))
    && s.athPrice == Get(f, "ath", Num(0.0))
    && s.currentMarketCap == Get(f, "market_cap", Num(0.0))
    && s.athDate == Get(f, "ath_date", Str("N/A"))
    && s.rank == Get(f, "market_cap_rank", Str("N/A"))
    && s.id == Get(f, "id", Str(""))
    && s.priceChange24h == Get(f, "price_change_24h", Num(0.0))
    && s.priceChangePercentage24h == Get(f, "price_change_percentage_24h", Num(0.0))
    && s.image == Get(f, "image", Str(""))
    && s.lastUpdated == Get(f, "last_updated", Str(""))
  }

  /** One iteration of the loop: the item appended for record `e`, or `None` when it is skipped. */
  function Qualify(e: Json, p: FilterParams): Option<Summary>
  {
    if !Truthy(e) || !e.Obj? then None
    else
      var f := e.fields;
      var priceV := Get(f, "current_price", Num(0.0));
      var capV := Get(f, "market_cap", Num(0.0));
      var athV := Get(f, "ath", Num(0.0));
      var price :- PositiveNumber(priceV);
      var ath :- PositiveNumber(athV);
      var drawdownV := ChosenDrawdown(Get(f, "ath_change_percentage", Null), price, ath);
      var cap :- AsNumber(capV);
      var estimated := (ath / price) * cap;
      var drawdown :- AsNumber(drawdownV);
      var positive := Abs(drawdown);
      var deviation := CalculateDeviation(Some(price), Some(ath));
      if !(estimated >= p.minAthMarketCap
           && cap >= p.minCurrentMarketCap
           && p.minDrawdown <= positive <= p.maxDrawdown)
      then None
      else
        var symbol :- SymbolOf(Get(f, "symbol", Str("N/A")));
        Some(Summary(
          name := Get(f, "name", Str("N/A")),
          symbol := symbol,
          currentPrice := priceV,
          athPrice := athV,
          currentMarketCap := capV,
          athDate := Get(f, "ath_date", Str("N/A")),
          estimatedAthMarketCap := estimated,
          drawdownPercent := Round2(drawdown),
          drawdownPositive := Round2(positive),
          priceDeviation := Round2(deviation),
          rank := Get(f, "market_cap_rank", Str("N/A")),
          id := Get(f, "id", Str("")),
          priceChange24h := Get(f, "price_change_24h", Num(0.0)),
          priceChangePercentage24h := Get(f, "price_change_percentage_24h", Num(0.0)),
          image := Get(f, "image", Str("")),
          lastUpdated := Get(f, "last_updated", Str(""))))
  }

  /** A record is kept exactly when it meets every condition. */
  lemma QualifyIffCriteria(e: Json, p: FilterParams)
    ensures Qualify(e, p).Some? <==> MeetsCriteria(e, p)
  {
  }

  /** A kept record is a non-empty dict, and its item copies the record's fields. */
  lemma QualifyCopies(e: Json, p: FilterParams)
    ensures Qualify(e, p).Some? ==> e.Obj? && Truthy(e) && Copied(e.fields, Qualify(e, p).value)
  {
  }

  /** Every item appended satisfies the thresholds it was checked against. */
  lemma QualifyAdmissible(e: Json, p: FilterParams)
    ensures Qualify(e, p).Some? ==> Admissible(Qualify(e, p).value, p)
  {
    if Qualify(e, p).Some? {
      var f := e.fields;
      var price := PositiveNumber(Get(f, "current_price", Num(0.0))).value;
      var ath := PositiveNumber(Get(f, "ath", Num(0.0))).value;
      var cap := AsNumber(Get(f, "market_cap", Num(0.0))).value;
      var drawdown := AsNumber(ChosenDrawdown(Get(f, "ath_change_percentage", Null), price, ath)).value;
      Round2Negate(drawdown);
      assert (ath / price) * cap * price == ath * cap;
    }
  }

  /** The drawdown is the record's own percentage when present, else the deviation from the high. */
  lemma QualifyDrawdownSource(e: Json, p: FilterParams)
    ensures Qualify(e, p).Some? && Get(e.fields, "ath_change_percentage", Null).Null? ==>
              Qualify(e, p).value.drawdownPercent == Qualify(e, p).value.priceDeviation
    ensures Qualify(e, p).Some? && !Get(e.fields, "ath_change_percentage", Null).Null? ==>
              Qualify(e, p).value.drawdownPercent == Round2(AsNumber(e.fields["ath_change_percentage"]).value)
  {
  }

  /** A market cap that is present but null or not a number raises at the multiplication. */
  lemma NonNumericMarketCapSkipped(e: Json, p: FilterParams)
    requires e.Obj? && "market_cap" in e.fields && AsNumber(e.fields["market_cap"]).None?
    ensures Qualify(e, p).None?
  {
  }

  /** With the drawdown bounds inverted no record can be kept. */
  lemma InvertedBoundsRejectRecord(e: Json, p: FilterParams)
    requires p.minDrawdown > p.maxDrawdown
    ensures Qualify(e, p).None?
  {
  }

  /** The items appended by the loop over `data`, before the final slice. */
  function Kept(data: seq<Json>, p: FilterParams): seq<Summary>
    decreases |data|
  {
    if data == [] then []
    else
      var rest := Kept(data[..|data| - 1], p);
      match Qualify(data[|data| - 1], p)
      case Some(s) => rest + [s]
      case None => rest
  }

  /** The positions of the kept records. */
  ghost function KeptIndices(data: seq<Json>, p: FilterParams): seq<nat>
    decreases |data|
  {
    if data == [] then []
    else if Qualify(data[|data| - 1], p).Some? then KeptIndices(data[..|data| - 1], p) + [|data| - 1]
    else KeptIndices(data[..|data| - 1], p)
  }

  /** The result list: `filtered[:max_results]`. */
  function Filter(data: seq<Json>, p: FilterParams): seq<Summary> {
    PyPrefix(Kept(data, p), p.maxResults)
  }

  /**
    The kept items are the qualifying records' items in input order: they sit
    at increasing positions, and every qualifying position is among them.
   */
  lemma {:induction false} KeptIsOrderedSubsequence(data: seq<Json>, p: FilterParams)
    ensures |KeptIndices(data, p)| == |Kept(data, p)|
    ensures StrictlyIncreasing(KeptIndices(data, p))
    ensures forall k :: 0 <= k < |Kept(data, p)| ==>
              KeptIndices(data, p)[k] < |data| && Qualify(data[KeptIndices(data, p)[k]], p) == Some(Kept(data, p)[k])
    ensures forall j :: 0 <= j < |data| && Qualify(data[j], p).Some? ==> j in KeptIndices(data, p)
    decreases |data|
  {
    if data != [] {
      var n := |data| - 1;
      var pre := data[..n];
      KeptIsOrderedSubsequence(pre, p);
      assert forall i :: 0 <= i < n ==> pre[i] == data[i];
    }
  }

  /**
    With a non-negative bound the result is the first `min(max_results, n)`
    kept items; no qualifying record is passed over before one that is
    returned, and a result shorter than the bound holds every qualifying record.
   */
  lemma FilterIsBoundedPrefix(data: seq<Json>, p: FilterParams)
    requires p.maxResults >= 0
    ensures |KeptIndices(data, p)| == |Kept(data, p)|
    ensures |Filter(data, p)| == Min(p.maxResults, |Kept(data, p)|) <= p.maxResults
    ensures Filter(data, p) == Kept(data, p)[..|Filter(data, p)|]
    ensures |Filter(data, p)| < p.maxResults ==> Filter(data, p) == Kept(data, p)
    ensures forall k :: 0 <= k < |Filter(data, p)| ==>
              KeptIndices(data, p)[k] < |data| && Qualify(data[KeptIndices(data, p)[k]], p) == Some(Filter(data, p)[k])
    ensures forall k, j :: 0 <= k < |Filter(data, p)| && 0 <= j < KeptIndices(data, p)[k] && Qualify(data[j], p).Some? ==>
              j in KeptIndices(data, p)[..k]
  {
    var out := Filter(data, p);
    var idx := KeptIndices(data, p);
    KeptIsOrderedSubsequence(data, p);
    forall k, j | 0 <= k < |out| && 0 <= j < idx[k] && Qualify(data[j], p).Some?
      ensures j in idx[..k]
    {
      assert j in idx;
      var k' :| 0 <= k' < |idx| && idx[k'] == j;
      assert k' < k;
      assert idx[..k][k'] == j;
    }
  }

  /** Every returned item, whatever the bound, satisfies the thresholds. */
  lemma FilterOutputAdmissible(data: seq<Json>, p: FilterParams)
    ensures forall s :: s in Filter(data, p) ==> Admissible(s, p)
  {
    KeptIsOrderedSubsequence(data, p);
    var kept := Kept(data, p);
    var idx := KeptIndices(data, p);
    forall k | 0 <= k < |kept|
      ensures Admissible(kept[k], p)
    {
      QualifyAdmissible(data[idx[k]], p);
    }
  }

  /** A record whose market cap is null or not a number is never the source of a returned item. */
  lemma NonNumericMarketCapNeverReturned(data: seq<Json>, p: FilterParams, j: nat)
    requires j < |data| && data[j].Obj?
    requires "market_cap" in data[j].fields && AsNumber(data[j].fields["market_cap"]).None?
    ensures j !in KeptIndices(data, p)
  {
    KeptIsOrderedSubsequence(data, p);
    NonNumericMarketCapSkipped(data[j], p);
  }

  lemma {:induction false} InvertedBoundsKeepNothing(data: seq<Json>, p: FilterParams)
    requires p.minDrawdown > p.maxDrawdown
    ensures Kept(data, p) == []
    decreases |data|
  {
    if data != [] {
      InvertedBoundsKeepNothing(data[..|data| - 1], p);
      InvertedBoundsRejectRecord(data[|data| - 1], p);
    }
  }

  /** Under the declared defaults (minimum drawdown 90, maximum 50) the result is empty for every input. */
  lemma DefaultsSelectNothing(data: seq<Json>)
    ensures Filter(data, Defaults) == []
  {
    InvertedBoundsKeepNothing(data, Defaults);
  }

  /** A record 90% below its high, with a current cap of one million and no other fields. */
  const DeepDrawdownRecord := Obj(map[
    "current_price" := Num(1.0),
    "ath" := Num(10.0),
    "market_cap" := Num(1000000.0),
    "symbol" := Str("abc")])

  lemma KeptSingleton(e: Json, p: FilterParams)
    ensures Kept([e], p) == (if Qualify(e, p).Some? then [Qualify(e, p).value] else [])
  {
    assert [e][..0] == [];
  }

  lemma DeepDrawdownRecordMeetsIntendedDefaults()
    ensures MeetsCriteria(DeepDrawdownRecord, IntendedDefaults)
  {
    var f := DeepDrawdownRecord.fields;
    assert "ath" in f;
    assert |f| > 0;
    assert Get(f, "current_price", Num(0.0)) == Num(1.0);
    assert Get(f, "ath", Num(0.0)) == Num(10.0);
    assert Get(f, "market_cap", Num(0.0)) == Num(1000000.0);
    assert Get(f, "ath_change_percentage", Null) == Null;
    assert Get(f, "symbol", Str("N/A")) == Str("abc");
    assert CalculateDeviation(Some(1.0), Some(10.0)) == -90.0;
  }

  /** With the bounds the right way round the defaults are consistent and do select deep drawdowns. */
  lemma IntendedDefaultsSelectDeepDrawdown()
    ensures IntendedDefaults.minDrawdown < IntendedDefaults.maxDrawdown
    ensures |Filter([DeepDrawdownRecord], IntendedDefaults)| == 1
    ensures Filter([DeepDrawdownRecord], Defaults) == []
  {
    DeepDrawdownRecordMeetsIntendedDefaults();
    QualifyIffCriteria(DeepDrawdownRecord, IntendedDefaults);
    KeptSingleton(DeepDrawdownRecord, IntendedDefaults);
    DefaultsSelectNothing([DeepDrawdownRecord]);
  }

  /** The loop of `filter_cryptocurrencies`, appending to `filtered` and slicing at the end. */
  method FilterCryptocurrencies(data: seq<Json>, p: FilterParams) returns (result: seq<Summary>)
    ensures result == Filter(data, p)
  {
    var filtered: seq<Summary> := [];
    var i := 0;
    while i < |data|
      invariant 0 <= i <= |data|
      invariant filtered == Kept(data[..i], p)
    {
      assert data[..i + 1][..i] == data[..i];
      var item := Qualify(data[i], p);
      if item.Some? {
        filtered := filtered + [item.value];
      }
      i := i + 1;
    }
    assert data[..i] == data;
    result := PyPrefix(filtered, p.maxResults);
  }
}
