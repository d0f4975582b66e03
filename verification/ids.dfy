/**
  The id de-duplication at the end of `CryptoAnalyzer.get_all_cryptos`: the
  first record seen for each `id` is kept, in input order. Reading
  `crypto['id']` and hashing it are not guarded there, so a record without a
  usable id aborts the whole step with the exception.
 */
module Ids {
  import opened Wrappers
  import opened Json
  import opened Seqs

  /** The members of a Python set of ids: `True == 1`, and `1 == 1.0`. */
  datatype Key = KNull | KNum(x: real) | KStr(s: string)

  /** The set element a JSON value becomes, or `None` for unhashable lists and dicts. */
  function HashKey(v: Json): Option<Key> {
    match v
    case Null => Some(KNull)
    case Bool(b) => Some(KNum(if b then 1.0 else 0.0))
    case Num(x) => Some(KNum(x))
    case Str(s) => Some(KStr(s))
    case Arr(_) => None
    case Obj(_) => None
  }

  datatype ErrorKind = KeyError | TypeError

  /** The exception raised while reading the id of the record at `index`. */
  datatype IdError = IdError(index: nat, kind: ErrorKind)

  /** `crypto['id']` followed by the hash of the `in seen_ids` test. */
  function IdOf(e: Json): Result<Key, ErrorKind> {
    match e
    case Obj(fields) =>
      if "id" !in fields then Failure(KeyError)
      else (match HashKey(fields["id"])
            case Some(k) => Success(k)
            case None => Failure(TypeError))
    case _ => Failure(TypeError)
  }

  predicate HasId(e: Json) {
    IdOf(e).Success?
  }

  function Id(e: Json): Key
    requires HasId(e)
  {
    IdOf(e).value
  }

  ghost predicate AllHaveIds(es: seq<Json>) {
    forall i :: 0 <= i < |es| ==> HasId(es[i])
  }

  /** The ids present among `es`. */
  function KeySet(es: seq<Json>): set<Key> {
    set i | 0 <= i < |es| && HasId(es[i]) :: Id(es[i])
  }

  /** The loop over the fetched records, one record at a time from the front. */
  function Dedup(es: seq<Json>): Result<seq<Json>, IdError>
    decreases |es|
  {
    if es == [] then Success([])
    else
      var u :- Dedup(es[..|es| - 1]);
      var last := es[|es| - 1];
      match IdOf(last)
      case Failure(kind) => Failure(IdError(|es| - 1, kind))
      case Success(k) => if k in KeySet(u) then Success(u) else Success(u + [last])
  }

  /** Record `i` carries an id no earlier record carries. */
  ghost predicate IsFirst(es: seq<Json>, i: int)
    requires 0 <= i < |es|
  {
    HasId(es[i]) && forall j :: 0 <= j < i && HasId(es[j]) ==> Id(es[j]) != Id(es[i])
  }

  /** The positions of the first occurrences, in increasing order. */
  ghost function FirstIndices(es: seq<Json>): seq<nat>
    decreases |es|
  {
    if es == [] then []
    else if IsFirst(es, |es| - 1) then FirstIndices(es[..|es| - 1]) + [|es| - 1]
    else FirstIndices(es[..|es| - 1])
  }

  lemma KeySetAppend(u: seq<Json>, e: Json)
    requires HasId(e)
    ensures KeySet(u + [e]) == KeySet(u) + {Id(e)}
  {
    var w := u + [e];
    assert forall i :: 0 <= i < |u| ==> w[i] == u[i];
    assert w[|u|] == e;
  }

  /** The step fails exactly when some record has no usable id, and then at the first such record. */
  lemma {:induction false} DedupFailsAtFirstBadRecord(es: seq<Json>)
    ensures Dedup(es).Failure? <==> !AllHaveIds(es)
    ensures Dedup(es).Failure? ==>
              var err := Dedup(es).error;
              && err.index < |es|
              && IdOf(es[err.index]) == Failure(err.kind)
              && AllHaveIds(es[..err.index])
    decreases |es|
  {
    if es != [] {
      var pre := es[..|es| - 1];
      DedupFailsAtFirstBadRecord(pre);
      assert forall i :: 0 <= i < |pre| ==> pre[i] == es[i];
      if Dedup(pre).Failure? {
        var err := Dedup(pre).error;
        assert es[..err.index] == pre[..err.index];
      } else {
        assert es[..|es| - 1] == pre;
      }
    }
  }

  /** On success every id occurs once in the output, and the output has exactly the input's ids. */
  lemma {:induction false} DedupKeepsEveryIdOnce(es: seq<Json>, u: seq<Json>)
    requires Dedup(es) == Success(u)
    ensures AllHaveIds(es) && AllHaveIds(u)
    ensures forall i, j :: 0 <= i < j < |u| ==> Id(u[i]) != Id(u[j])
    ensures KeySet(u) == KeySet(es)
    decreases |es|
  {
    if es != [] {
      var pre := es[..|es| - 1];
      var last := es[|es| - 1];
      var u' := Dedup(pre).value;
      DedupKeepsEveryIdOnce(pre, u');
      assert forall i :: 0 <= i < |pre| ==> pre[i] == es[i];
      assert es == pre + [last];
      KeySetAppend(pre, last);
      if Id(last) !in KeySet(u') {
        KeySetAppend(u', last);
        assert u == u' + [last];
        forall i, j | 0 <= i < j < |u|
          ensures Id(u[i]) != Id(u[j])
        {
          if j == |u'| {
            assert Id(u[i]) in KeySet(u');
          }
        }
      }
    }
  }

  /**
    On success the output is the subsequence of first occurrences: its items
    are the records at the increasing positions `FirstIndices(es)`, each the
    first record with its id, and no first occurrence is missing.
   */
  lemma {:induction false} DedupKeepsFirstOccurrences(es: seq<Json>, u: seq<Json>)
    requires Dedup(es) == Success(u)
    ensures |FirstIndices(es)| == |u|
    ensures StrictlyIncreasing(FirstIndices(es))
    ensures forall k :: 0 <= k < |u| ==>
              FirstIndices(es)[k] < |es| && u[k] == es[FirstIndices(es)[k]] && IsFirst(es, FirstIndices(es)[k])
    ensures forall i :: 0 <= i < |es| && IsFirst(es, i) ==> i in FirstIndices(es)
    decreases |es|
  {
    if es != [] {
      var n := |es| - 1;
      var pre := es[..n];
      var last := es[n];
      var u' := Dedup(pre).value;
      DedupKeepsFirstOccurrences(pre, u');
      DedupKeepsEveryIdOnce(pre, u');
      DedupKeepsEveryIdOnce(es, u);
      var idx' := FirstIndices(pre);
      assert forall i :: 0 <= i < n ==> pre[i] == es[i];
      assert forall i :: 0 <= i < n ==> (IsFirst(es, i) <==> IsFirst(pre, i));
      assert IsFirst(es, n) <==> Id(last) !in KeySet(pre) by {
        if Id(last) in KeySet(pre) {
          var j :| 0 <= j < n && HasId(pre[j]) && Id(pre[j]) == Id(last);
          assert es[j] == pre[j];
        }
      }
      if IsFirst(es, n) {
        assert u == u' + [last];
        assert FirstIndices(es) == idx' + [n];
      } else {
        assert u == u';
        assert FirstIndices(es) == idx';
      }
    }
  }

  /** Once a prefix fails, every extension fails with the same exception. */
  lemma {:induction false} DedupFailureExtends(es: seq<Json>, n: nat)
    requires n <= |es| && Dedup(es[..n]).Failure?
    ensures Dedup(es) == Dedup(es[..n])
    decreases |es| - n
  {
    if n < |es| {
      var pre := es[..|es| - 1];
      assert pre[..n] == es[..n];
      DedupFailureExtends(pre, n);
    } else {
      assert es[..n] == es;
    }
  }

  /** The loop of `get_all_cryptos` with its `seen_ids` set, computing `Dedup`. */
  method DedupById(es: seq<Json>) returns (r: Result<seq<Json>, IdError>)
    ensures r == Dedup(es)
  {
    var seen: set<Key> := {};
    var unique: seq<Json> := [];
    var i := 0;
    while i < |es|
      invariant 0 <= i <= |es|
      invariant Dedup(es[..i]) == Success(unique)
      invariant seen == KeySet(unique)
    {
      var crypto := es[i];
      assert es[..i + 1][..i] == es[..i];
      var id := IdOf(crypto);
      if id.Failure? {
        DedupFailureExtends(es, i + 1);
        return Failure(IdError(i, id.error));
      }
      if id.value !in seen {
        KeySetAppend(unique, crypto);
        seen := seen + {id.value};
        unique := unique + [crypto];
      }
      i := i + 1;
    }
    assert es[..i] == es;
    r := Success(unique);
  }
}
