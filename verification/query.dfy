/**
 queryAllCerts: a range query over [CERT0, CERT999) rendered as a JSON array
 of {"Key": ..., "Record": ...} items. Keys and stored values are copied into
 the text verbatim.
 */
module Query {
  import opened Text
  import opened Ledger
  import opened Peer

  const StartKey: string := "CERT0"
  const EndKey: string := "CERT999"

  /** One array item: the key quoted, the stored value as it is. */
  function Item(kv: KV): string {
    "{\"Key\":" + "\"" + kv.key + "\"" + ", \"Record\":" + kv.value + "}"
  }

  function Items(es: seq<KV>): seq<string> {
    seq(|es|, i requires 0 <= i < |es| => Item(es[i]))
  }

  /** The reference rendering: "[", the items separated by ",", "]". */
  function ResultArray(es: seq<KV>): string {
    "[" + Join(",", Items(es)) + "]"
  }

  /** The response for the results of a range iterator: the first Next error, or the array. */
  function Render(rs: seq<NextResult>): (r: Response)
    ensures r.Success? <==> forall i :: 0 <= i < |rs| ==> rs[i].Got?
    ensures r.Error? ==> exists i :: 0 <= i < |rs| && rs[i] == NextFailed(r.message)
  {
    FailureWitness(rs);
    match Failure(rs)
    case Some(m) => Error(m)
    case None => Success(ResultArray(Entries(rs)))
  }

  /** The first pair read from the iterator becomes the only item, with no comma before it. */
  lemma FirstItemAppended(rs: seq<NextResult>)
    requires 0 < |rs| && rs[0].Got?
    ensures "[" + Item(rs[0].kv) == "[" + Join(",", Items(Entries(rs[..1])))
  {
  }

  /** Each later pair adds one comma and one item. */
  lemma ItemAppended(rs: seq<NextResult>, i: nat, buffer: string)
    requires 0 < i < |rs| && rs[i].Got?
    requires forall m :: 0 <= m < i ==> rs[m].Got?
    requires buffer == "[" + Join(",", Items(Entries(rs[..i])))
    ensures buffer + "," + Item(rs[i].kv) == "[" + Join(",", Items(Entries(rs[..i + 1])))
  {
    var before := Entries(rs[..i]);
    var kv := rs[i].kv;
    assert rs[..i + 1][..i] == rs[..i];
    assert Entries(rs[..i + 1]) == before + [kv];
    assert Items(before + [kv]) == Items(before) + [Item(kv)];
    assert |before| == i;
    var j := Join(",", Items(before));
    JoinSnoc(",", Items(before), Item(kv));
    assert buffer + "," + Item(kv) == "[" + (j + "," + Item(kv));
  }

  /**
   One pass of the loop body for a pair: a comma when an item is already in
   the buffer, then the six writes that make up the item.
   */
  method WriteMember(buffer: string, alreadyWritten: bool, kv: KV) returns (out: string)
    ensures out == buffer + (if alreadyWritten then "," else "") + Item(kv)
  {
    out := buffer;
    if alreadyWritten {
      out := out + ",";
    }
    var start := out;
    out := out + "{\"Key\":";
    out := out + "\"";
    out := out + kv.key;
    out := out + "\"";
    out := out + ", \"Record\":";
    out := out + kv.value;
    out := out + "}";
    assert out == start + Item(kv);
  }

  /**
   The buffer-building loop: writes "[", then for each result either stops
   with the Next error or writes a comma (unless nothing has been written yet)
   and the item, then writes "]".
   */
  method BufferResults(rs: seq<NextResult>) returns (r: Response)
    ensures Failure(rs).Some? ==> r == Error(Failure(rs).value)
    ensures Failure(rs).None? ==> r == Success(ResultArray(Entries(rs)))
  {
    var buffer := "[";
    var alreadyWritten := false;
    var i := 0;
    assert rs[..0] == [];
    while i < |rs|
      invariant 0 <= i <= |rs|
      invariant forall m :: 0 <= m < i ==> rs[m].Got?
      invariant alreadyWritten <==> i > 0
      invariant buffer == "[" + Join(",", Items(Entries(rs[..i])))
    {
      match rs[i] {
        case NextFailed(message) =>
          FailureAt(rs, i);
          return Error(message);
        case Got(kv) =>
          if i == 0 {
            FirstItemAppended(rs);
          } else {
            ItemAppended(rs, i, buffer);
          }
          buffer := WriteMember(buffer, alreadyWritten, kv);
          alreadyWritten := true;
      }
      i := i + 1;
    }
    assert rs[..i] == rs;
    buffer := buffer + "]";
    r := Success(buffer);
  }

  /** queryAllCerts over state s, given what GetStateByRange gives back. */
  function QueryAllCerts(s: State, open: RangeOpen): (r: Outcome)
    requires RangeScanOf(s, StartKey, EndKey, open)
    ensures r.state == s && r.writes == []
    ensures open.RangeFailed? ==> r.response == Error(open.message)
    ensures open.RangeOpened? ==> r.response == Render(open.results)
  {
    match open
    case RangeFailed(message) => Outcome(Error(message), s, [])
    case RangeOpened(rs) => Outcome(Render(rs), s, [])
  }

  /**
   es lists exactly the pairs of s whose keys lie in [lo, hi), in strictly
   ascending key order.
   */
  ghost predicate IsRangeListing(s: State, lo: string, hi: string, es: seq<KV>) {
    && (forall i :: 0 <= i < |es| ==> InRange(es[i].key, lo, hi) && es[i].key in s && s[es[i].key] == es[i].value)
    && (forall i, j :: 0 <= i < j < |es| ==> Below(es[i].key, es[j].key))
    && (forall k :: k in s && InRange(k, lo, hi) ==> exists i :: 0 <= i < |es| && es[i].key == k)
  }

  /**
   queryAllCerts never writes; it succeeds exactly when the iterator opens and
   every Next succeeds, and then its payload is the array of exactly the
   pairs stored under keys in [CERT0, CERT999), in ascending key order.
   */
  lemma QueryAllCertsListsRange(s: State, open: RangeOpen)
    requires RangeScanOf(s, StartKey, EndKey, open)
    ensures QueryAllCerts(s, open).state == s && QueryAllCerts(s, open).writes == []
    ensures QueryAllCerts(s, open).response.Success? <==> open.RangeOpened? && forall i :: 0 <= i < |open.results| ==> open.results[i].Got?
    ensures QueryAllCerts(s, open).response.Success? ==>
      IsRangeListing(s, StartKey, EndKey, Entries(open.results)) &&
      QueryAllCerts(s, open).response.payload == ResultArray(Entries(open.results))
  {
  }

  /**
   The first element of a non-empty sequence is a member of it, stated as an
   implication so that a branch where the sequence cannot be non-empty can use it.
   */
  lemma HeadIsMember(xs: seq<string>)
    ensures xs != [] ==> xs[0] in xs
  {
  }

  /** Two ascending sequences with the same elements are the same sequence. */
  lemma {:induction false} SortedUnique(a: seq<string>, b: seq<string>)
    requires forall i, j :: 0 <= i < j < |a| ==> Below(a[i], a[j])
    requires forall i, j :: 0 <= i < j < |b| ==> Below(b[i], b[j])
    requires forall x :: x in a <==> x in b
    ensures a == b
    decreases |a|
  {
    if |a| == 0 {
      if b != [] {
        HeadIsMember(b);
        assert false;
      }
    } else {
      assert a[0] in b;
      assert b[0] in a;
      var j :| 0 <= j < |b| && b[j] == a[0];
      var i :| 0 <= i < |a| && a[i] == b[0];
      if i > 0 && j > 0 {
        BelowTransitive(a[0], b[0], a[0]);
        BelowIrreflexive(a[0]);
      }
      assert a[0] == b[0];
      forall x
        ensures x in a[1..] <==> x in b[1..]
      {
        if x in a[1..] {
          var m :| 0 <= m < |a| - 1 && a[1..][m] == x;
          assert Below(a[0], a[m + 1]);
          BelowIrreflexive(x);
          assert a[m + 1] == x && x in a;
          var n :| 0 <= n < |b| && b[n] == x;
          assert n != 0;
          assert b[1..][n - 1] == x;
        }
        if x in b[1..] {
          var m :| 0 <= m < |b| - 1 && b[1..][m] == x;
          assert Below(b[0], b[m + 1]);
          BelowIrreflexive(x);
          assert b[m + 1] == x && x in b;
          var n :| 0 <= n < |a| && a[n] == x;
          assert n != 0;
          assert a[1..][n - 1] == x;
        }
      }
      SortedUnique(a[1..], b[1..]);
      assert a == [a[0]] + a[1..] && b == [b[0]] + b[1..];
    }
  }

  function KeysOf(es: seq<KV>): seq<string> {
    seq(|es|, i requires 0 <= i < |es| => es[i].key)
  }

  /** A key listed by one listing of an interval of a state is listed by any other. */
  lemma ListedKeyListed(s: State, lo: string, hi: string, a: seq<KV>, b: seq<KV>, x: string)
    requires IsRangeListing(s, lo, hi, a) && IsRangeListing(s, lo, hi, b)
    requires x in KeysOf(a)
    ensures x in KeysOf(b)
  {
    var i :| 0 <= i < |a| && KeysOf(a)[i] == x;
    assert a[i].key in s && InRange(a[i].key, lo, hi);
    var j :| 0 <= j < |b| && b[j].key == x;
    assert KeysOf(b)[j] == x;
  }

  /** Two listings of the same interval of a state list the same keys, in the same order. */
  lemma ListingKeysAgree(s: State, lo: string, hi: string, a: seq<KV>, b: seq<KV>)
    requires IsRangeListing(s, lo, hi, a) && IsRangeListing(s, lo, hi, b)
    ensures KeysOf(a) == KeysOf(b)
  {
    forall x
      ensures x in KeysOf(a) <==> x in KeysOf(b)
    {
      if x in KeysOf(a) {
        ListedKeyListed(s, lo, hi, a, b, x);
      }
      if x in KeysOf(b) {
        ListedKeyListed(s, lo, hi, b, a, x);
      }
    }
    SortedUnique(KeysOf(a), KeysOf(b));
  }

  /**
   A state has one listing of each interval, so the rendered array depends on
   the state alone and not on how the iterator was produced.
   */
  lemma RangeListingUnique(s: State, lo: string, hi: string, a: seq<KV>, b: seq<KV>)
    requires IsRangeListing(s, lo, hi, a) && IsRangeListing(s, lo, hi, b)
    ensures a == b
  {
    ListingKeysAgree(s, lo, hi, a, b);
    assert |a| == |KeysOf(a)| == |KeysOf(b)| == |b|;
    forall i | 0 <= i < |a|
      ensures a[i] == b[i]
    {
      assert KeysOf(a)[i] == KeysOf(b)[i];
    }
  }

  /** The rendered array has no separator before the first item and one between each pair. */
  lemma ResultArrayShape(es: seq<KV>)
    ensures |es| == 0 ==> ResultArray(es) == "[]"
    ensures |es| > 0 ==> |ResultArray(es)| == 2 + TotalLength(Items(es)) + (|es| - 1)
  {
    if |es| > 0 {
      JoinLength(",", Items(es));
    }
  }
}
