/**
  The pure part of `CryptoAnalyzer.analyze_cryptocurrencies`: the fetched
  records are de-duplicated by id, an empty list short-cuts to an empty
  result, and the rest goes through the filter.
 */
module Analysis {
  import opened Wrappers
  import opened Json
  import opened Seqs
  import opened Params
  import opened Ids
  import opened Selection

  function Analyze(fetched: seq<Json>, p: FilterParams): Result<seq<Summary>, IdError> {
    var unique :- Dedup(fetched);
    if |unique| == 0 then Success([]) else Success(Filter(unique, p))
  }

  /** The analysis fails exactly when some fetched record has no usable id. */
  lemma AnalyzeFailsOnlyWithoutIds(fetched: seq<Json>, p: FilterParams)
    ensures Analyze(fetched, p).Failure? <==> !AllHaveIds(fetched)
  {
    DedupFailsAtFirstBadRecord(fetched);
  }

  /** A kept item's `id` field is the record's id value. */
  lemma ItemCarriesRecordId(e: Json, p: FilterParams)
    requires HasId(e) && Qualify(e, p).Some?
    ensures HashKey(Qualify(e, p).value.id) == Some(Id(e))
  {
    QualifyCopies(e, p);
  }

  /** No two items of a successful analysis carry the same id. */
  lemma AnalyzeReturnsDistinctIds(fetched: seq<Json>, p: FilterParams, out: seq<Summary>)
    requires Analyze(fetched, p) == Success(out)
    ensures forall k :: 0 <= k < |out| ==> HashKey(out[k].id).Some?
    ensures forall a, b :: 0 <= a < b < |out| ==> HashKey(out[a].id) != HashKey(out[b].id)
  {
    var unique := Dedup(fetched).value;
    DedupKeepsEveryIdOnce(fetched, unique);
    if |unique| > 0 {
      KeptIsOrderedSubsequence(unique, p);
      var kept := Kept(unique, p);
      var idx := KeptIndices(unique, p);
      assert out == kept[..|out|];
      forall k | 0 <= k < |out|
        ensures HashKey(out[k].id) == Some(Id(unique[idx[k]]))
      {
        assert out[k] == kept[k];
        ItemCarriesRecordId(unique[idx[k]], p);
      }
      forall a, b | 0 <= a < b < |out|
        ensures HashKey(out[a].id) != HashKey(out[b].id)
      {
        assert idx[a] < idx[b];
      }
    }
  }
}
