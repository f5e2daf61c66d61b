/**
 The world state as the chaincode sees it through the Fabric shim: a map from
 keys to stored bytes, point reads and writes, and the results of a range
 query. Writes are recorded in the order they are issued, so that a handler's
 effect is the list of its PutState calls applied to the state it started from.
 */
module Ledger {
  import opened Wrappers
  import opened Text

  type State = map<string, seq<char>>

  /** One PutState call. */
  datatype Write = Write(key: string, value: seq<char>)

  function WrittenKeys(ws: seq<Write>): set<string> {
    set i | 0 <= i < |ws| :: ws[i].key
  }

  /** The state after the writes ws, issued in order, starting from s. */
  function Apply(s: State, ws: seq<Write>): (r: State)
    ensures r.Keys == s.Keys + WrittenKeys(ws)
    ensures forall k :: k in s && k !in WrittenKeys(ws) ==> r[k] == s[k]
    decreases |ws|
  {
    if |ws| == 0 then s
    else
      assert WrittenKeys(ws) == {ws[0].key} + WrittenKeys(ws[1..]);
      Apply(s[ws[0].key := ws[0].value], ws[1..])
  }

  /** A key holds the value of the last write to it. */
  lemma {:induction false} ApplyLastWrite(s: State, ws: seq<Write>, j: nat)
    requires j < |ws|
    requires forall m :: j < m < |ws| ==> ws[m].key != ws[j].key
    ensures ws[j].key in Apply(s, ws) && Apply(s, ws)[ws[j].key] == ws[j].value
    decreases |ws|
  {
    assert WrittenKeys(ws) == {ws[0].key} + WrittenKeys(ws[1..]);
    if j == 0 {
      assert ws[0].key !in WrittenKeys(ws[1..]);
    } else {
      ApplyLastWrite(s[ws[0].key := ws[0].value], ws[1..], j - 1);
    }
  }

  /** GetState: the stored value, or nothing when the key is absent. */
  function GetState(s: State, key: string): seq<char> {
    if key in s then s[key] else []
  }

  /** A key/value pair yielded by a range iterator. */
  datatype KV = KV(key: string, value: seq<char>)

  /** The outcome of one Next call on a range iterator. */
  datatype NextResult = Got(kv: KV) | NextFailed(message: string)

  /**
   The outcome of GetStateByRange: an error, or the results of the Next calls
   made while HasNext held, in order.
   */
  datatype RangeOpen = RangeFailed(message: string) | RangeOpened(results: seq<NextResult>)

  /** The half-open key interval [lo, hi) of a range query. */
  predicate InRange(key: string, lo: string, hi: string) {
    !Below(key, lo) && Below(key, hi)
  }

  /** The first Next error, if any. */
  function Failure(rs: seq<NextResult>): (r: Option<string>)
    ensures r.None? <==> forall i :: 0 <= i < |rs| ==> rs[i].Got?
    decreases |rs|
  {
    if |rs| == 0 then None
    else match Failure(rs[..|rs| - 1])
      case Some(m) => Some(m)
      case None => if rs[|rs| - 1].NextFailed? then Some(rs[|rs| - 1].message) else None
  }

  /** A reported error is the message of some Next call that failed. */
  lemma {:induction false} FailureWitness(rs: seq<NextResult>)
    ensures Failure(rs).Some? ==> exists i :: 0 <= i < |rs| && rs[i] == NextFailed(Failure(rs).value)
    decreases |rs|
  {
    if |rs| > 0 {
      var prefix := rs[..|rs| - 1];
      FailureWitness(prefix);
      if Failure(prefix).Some? {
        var i :| 0 <= i < |prefix| && prefix[i] == NextFailed(Failure(prefix).value);
        assert rs[i] == prefix[i];
      }
    }
  }

  /** The error reported is the one of the first Next call that failed. */
  lemma {:induction false} FailureAt(rs: seq<NextResult>, i: nat)
    requires i < |rs| && rs[i].NextFailed?
    requires forall m :: 0 <= m < i ==> rs[m].Got?
    ensures Failure(rs) == Some(rs[i].message)
    decreases |rs|
  {
    var prefix := rs[..|rs| - 1];
    if i == |rs| - 1 {
      assert forall m :: 0 <= m < |prefix| ==> prefix[m].Got?;
    } else {
      assert prefix[i] == rs[i];
      FailureAt(prefix, i);
    }
  }

  /** The pairs among the results, in the order they were yielded. */
  function Entries(rs: seq<NextResult>): (r: seq<KV>)
    ensures (forall i :: 0 <= i < |rs| ==> rs[i].Got?) ==> |r| == |rs| && forall i :: 0 <= i < |rs| ==> r[i] == rs[i].kv
    decreases |rs|
  {
    if |rs| == 0 then []
    else Entries(rs[..|rs| - 1]) + (if rs[|rs| - 1].Got? then [rs[|rs| - 1].kv] else [])
  }

  /**
   What the shim guarantees of a range query over s: every pair yielded lies in
   [lo, hi) and is stored in s, keys ascend strictly, and a scan that meets no
   error yields every key of s in the interval.
   */
  ghost predicate RangeScanOf(s: State, lo: string, hi: string, open: RangeOpen) {
    open.RangeOpened? ==>
      var rs := open.results;
      && (forall i :: 0 <= i < |rs| && rs[i].Got? ==>
            InRange(rs[i].kv.key, lo, hi) && rs[i].kv.key in s && s[rs[i].kv.key] == rs[i].kv.value)
      && (forall i, j :: 0 <= i < j < |rs| && rs[i].Got? && rs[j].Got? ==> Below(rs[i].kv.key, rs[j].kv.key))
      && (Failure(rs).None? ==>
            forall k :: k in s && InRange(k, lo, hi) ==> exists i :: 0 <= i < |rs| && rs[i].Got? && rs[i].kv.key == k)
  }
}
