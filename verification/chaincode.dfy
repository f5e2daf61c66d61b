/**
 The certificate chaincode's handlers. Each takes the state before the call,
 the call's arguments and its transaction id (GetTxID gives the same id every
 time within one invocation), and gives an Outcome: the response, the state
 after the call and the PutState calls it made, in order.
 */
module Chaincode {
  import opened Wrappers
  import opened Text
  import opened Ledger
  import opened Peer
  import opened Certs
  import opened Query

  const InvalidFunction: string := "Invalid Smart Contract function name."
  const ExpectingOne: string := "Incorrect number of arguments. Expecting 1"
  const ExpectingFive: string := "Incorrect number of arguments. Expecting 5"

  /** queryCert: the bytes stored under args[0], or nothing when absent. Never writes. */
  function QueryCert(s: State, args: seq<string>): (r: Outcome)
    ensures r.state == s && r.writes == []
    ensures |args| != 1 ==> r.response == Error(ExpectingOne)
    ensures |args| == 1 && args[0] in s ==> r.response == Success(s[args[0]])
    ensures |args| == 1 && args[0] !in s ==> r.response == Success([])
  {
    if |args| != 1 then Outcome(Error(ExpectingOne), s, [])
    else Outcome(Success(GetState(s, args[0])), s, [])
  }

  /** The record createCert builds from its five arguments; the details field stays empty. */
  function NewCert(args: seq<string>, txId: string): Cert
    requires |args| == 5
  {
    Cert(id := args[1], name := args[2], certName := args[3], certDetails := "", organisation := args[4], txHash := txId)
  }

  /**
   createCert: with five arguments, stores the encoded record under args[0]
   and touches no other key; otherwise an error and no write.
   */
  function CreateCert(s: State, args: seq<string>, txId: string): (r: Outcome)
    ensures r.state == Apply(s, r.writes)
    ensures |args| != 5 ==> r.response == Error(ExpectingFive) && r.writes == [] && r.state == s
    ensures |args| == 5 ==>
      && r.response == Success([])
      && |r.writes| == 1 && r.writes[0].key == args[0]
      && r.state.Keys == s.Keys + {args[0]}
      && (forall k :: k in s && k != args[0] ==> r.state[k] == s[k])
      && Unmarshal(r.state[args[0]]) == Some(Cert(args[1], args[2], args[3], "", args[4], txId))
  {
    if |args| != 5 then Outcome(Error(ExpectingFive), s, [])
    else
      var cert := NewCert(args, txId);
      var ws := [Write(args[0], Marshal(cert))];
      assert ws[0].key == args[0];
      assert WrittenKeys(ws) == {args[0]};
      ApplyLastWrite(s, ws, 0);
      MarshalRoundTrip(cert);
      Outcome(Success([]), Apply(s, ws), ws)
  }

  /** The key initLedger uses for the i-th seed record: "CERT" followed by i in decimal. */
  function CertKey(i: nat): (r: string)
    ensures |r| > 4 && r[..4] == "CERT"
    ensures (forall j :: 4 <= j < |r| ==> IsDigit(r[j])) && ParseDecimal(r[4..]) == i
  {
    var r := "CERT" + Decimal(i);
    assert r[4..] == Decimal(i);
    DecimalRoundTrip(i);
    r
  }

  lemma CertKeyInjective(i: nat, j: nat)
    requires CertKey(i) == CertKey(j)
    ensures i == j
  {
  }

  /**
   The three sample records. GetTxID is asked once per record, but within one
   invocation it always gives the same id, so all three carry it.
   */
  function Seeds(txId: string): (certs: seq<Cert>)
    ensures |certs| == 3
    ensures forall i :: 0 <= i < |certs| ==> certs[i].txHash == txId && certs[i].certDetails == ""
  {
    [
      Cert("STUD0", "Arnav", "ABCD", "", "BlockVidhya", txId),
      Cert("STUD1", "Rachit", "SSMS", "", "BlockVidhya", txId),
      Cert("STUD2", "Puneet", "XJZZ", "", "BlockVidhya", txId)
    ]
  }

  /** The writes of the seeding loop from iteration i on: one per remaining record. */
  function SeedWrites(certs: seq<Cert>, i: nat): (ws: seq<Write>)
    requires i <= |certs|
    ensures |ws| == |certs| - i
    ensures forall j :: 0 <= j < |ws| ==> ws[j] == Write(CertKey(i + j), Marshal(certs[i + j]))
    decreases |certs| - i
  {
    if i == |certs| then []
    else
      var rest := SeedWrites(certs, i + 1);
      var ws := [Write(CertKey(i), Marshal(certs[i]))] + rest;
      assert forall j :: 0 < j < |ws| ==> ws[j] == rest[j - 1];
      ws
  }

  /** After the seeding loop, the i-th record is stored under CertKey(i), whatever was there before. */
  lemma SeedLoopStoresEach(s: State, certs: seq<Cert>)
    ensures forall i :: 0 <= i < |certs| ==>
      CertKey(i) in Apply(s, SeedWrites(certs, 0)) && Apply(s, SeedWrites(certs, 0))[CertKey(i)] == Marshal(certs[i])
  {
    var ws := SeedWrites(certs, 0);
    forall i | 0 <= i < |certs|
      ensures CertKey(i) in Apply(s, ws) && Apply(s, ws)[CertKey(i)] == Marshal(certs[i])
    {
      forall m | i < m < |ws|
        ensures ws[m].key != ws[i].key
      {
        if ws[m].key == ws[i].key {
          CertKeyInjective(m, i);
        }
      }
      ApplyLastWrite(s, ws, i);
    }
  }

  lemma SeedKeyNames()
    ensures CertKey(0) == "CERT0" && CertKey(1) == "CERT1" && CertKey(2) == "CERT2"
  {
  }

  /** Over three records the seeding loop writes CERT0, CERT1, CERT2, in that order. */
  lemma SeedLoopOfThree(certs: seq<Cert>)
    requires |certs| == 3
    ensures SeedWrites(certs, 0) ==
      [Write("CERT0", Marshal(certs[0])), Write("CERT1", Marshal(certs[1])), Write("CERT2", Marshal(certs[2]))]
  {
    SeedKeyNames();
  }

  /** Three writes to CERT0, CERT1, CERT2 store their values there and leave every other key alone. */
  lemma ThreeWrites(s: State, v0: seq<char>, v1: seq<char>, v2: seq<char>)
    ensures var r := Apply(s, [Write("CERT0", v0), Write("CERT1", v1), Write("CERT2", v2)]);
      && r.Keys == s.Keys + {"CERT0", "CERT1", "CERT2"}
      && (forall k :: k in s && k != "CERT0" && k != "CERT1" && k != "CERT2" ==> r[k] == s[k])
      && r["CERT0"] == v0 && r["CERT1"] == v1 && r["CERT2"] == v2
  {
    var ws := [Write("CERT0", v0), Write("CERT1", v1), Write("CERT2", v2)];
    assert ws[0].key in WrittenKeys(ws) && ws[1].key in WrittenKeys(ws) && ws[2].key in WrittenKeys(ws);
    forall k | k in WrittenKeys(ws)
      ensures k in {"CERT0", "CERT1", "CERT2"}
    {
      var j :| 0 <= j < |ws| && ws[j].key == k;
    }
    assert WrittenKeys(ws) == {"CERT0", "CERT1", "CERT2"};
    ApplyLastWrite(s, ws, 0);
    ApplyLastWrite(s, ws, 1);
    ApplyLastWrite(s, ws, 2);
  }

  /**
   initLedger: succeeds, and its PutState calls are CERT0, CERT1 and CERT2, in
   that order, each holding the matching sample record.
   */
  function InitLedger(s: State, txId: string): (r: Outcome)
    ensures r.response == Success([])
    ensures r.state == Apply(s, r.writes)
    ensures r.writes ==
      [Write("CERT0", Marshal(Seeds(txId)[0])), Write("CERT1", Marshal(Seeds(txId)[1])), Write("CERT2", Marshal(Seeds(txId)[2]))]
  {
    var ws := SeedWrites(Seeds(txId), 0);
    SeedLoopOfThree(Seeds(txId));
    Outcome(Success([]), Apply(s, ws), ws)
  }

  /** After initLedger the three seed keys hold the sample records and every other key is as it was. */
  lemma InitLedgerEffects(s: State, txId: string)
    ensures InitLedger(s, txId).state.Keys == s.Keys + {"CERT0", "CERT1", "CERT2"}
    ensures forall k :: k in s && k != "CERT0" && k != "CERT1" && k != "CERT2" ==> InitLedger(s, txId).state[k] == s[k]
    ensures InitLedger(s, txId).state["CERT0"] == Marshal(Seeds(txId)[0])
    ensures InitLedger(s, txId).state["CERT1"] == Marshal(Seeds(txId)[1])
    ensures InitLedger(s, txId).state["CERT2"] == Marshal(Seeds(txId)[2])
  {
    var certs := Seeds(txId);
    ThreeWrites(s, Marshal(certs[0]), Marshal(certs[1]), Marshal(certs[2]));
  }

  /** The four function names Invoke routes. */
  const Handlers: set<string> := {"queryCert", "initLedger", "createCert", "queryAllCerts"}

  /**
   Invoke: routes each of the four function names to its handler and answers
   any other name with an error, touching nothing. `open` is what
   GetStateByRange over [CERT0, CERT999) gives back for the state s.
   */
  function Invoke(s: State, name: string, args: seq<string>, txId: string, open: RangeOpen): (r: Outcome)
    requires RangeScanOf(s, StartKey, EndKey, open)
    ensures name == "queryCert" ==> r == QueryCert(s, args)
    ensures name == "initLedger" ==> r == InitLedger(s, txId)
    ensures name == "createCert" ==> r == CreateCert(s, args, txId)
    ensures name == "queryAllCerts" ==> r == QueryAllCerts(s, open)
    ensures name !in Handlers ==> r == Outcome(Error(InvalidFunction), s, [])
  {
    if name == "queryCert" then QueryCert(s, args)
    else if name == "initLedger" then InitLedger(s, txId)
    else if name == "createCert" then CreateCert(s, args, txId)
    else if name == "queryAllCerts" then QueryAllCerts(s, open)
    else Outcome(Error(InvalidFunction), s, [])
  }

  /**
   Whatever is invoked, the state afterwards is the state before with the
   call's PutState calls applied; a call that answers with an error writes
   nothing; the two query functions never write.
   */
  lemma InvokeEffects(s: State, name: string, args: seq<string>, txId: string, open: RangeOpen)
    requires RangeScanOf(s, StartKey, EndKey, open)
    ensures Invoke(s, name, args, txId, open).state == Apply(s, Invoke(s, name, args, txId, open).writes)
    ensures Invoke(s, name, args, txId, open).response.Error? ==>
      Invoke(s, name, args, txId, open).writes == [] && Invoke(s, name, args, txId, open).state == s
    ensures name == "queryCert" || name == "queryAllCerts" ==>
      Invoke(s, name, args, txId, open).writes == [] && Invoke(s, name, args, txId, open).state == s
  {
  }

  /** A record created with createCert is what queryCert then reads back under its key. */
  lemma CreateThenQuery(s: State, args: seq<string>, txId: string)
    requires |args| == 5
    ensures QueryCert(CreateCert(s, args, txId).state, [args[0]]).response.Success?
    ensures Unmarshal(QueryCert(CreateCert(s, args, txId).state, [args[0]]).response.payload) == Some(NewCert(args, txId))
  {
  }

  /** A state holding exactly CERT0, CERT1 and CERT2 is listed by queryAllCerts in that order. */
  lemma ThreeKeyListing(s: State, v0: seq<char>, v1: seq<char>, v2: seq<char>)
    requires s.Keys == {"CERT0", "CERT1", "CERT2"}
    requires s["CERT0"] == v0 && s["CERT1"] == v1 && s["CERT2"] == v2
    ensures IsRangeListing(s, StartKey, EndKey, [KV("CERT0", v0), KV("CERT1", v1), KV("CERT2", v2)])
  {
    var listed := [KV("CERT0", v0), KV("CERT1", v1), KV("CERT2", v2)];
    assert InRange("CERT0", StartKey, EndKey) && InRange("CERT1", StartKey, EndKey) && InRange("CERT2", StartKey, EndKey);
    assert Below("CERT0", "CERT1") && Below("CERT1", "CERT2") && Below("CERT0", "CERT2");
    forall k | k in s && InRange(k, StartKey, EndKey)
      ensures exists i :: 0 <= i < |listed| && listed[i].key == k
    {
      if k == "CERT0" {
        assert listed[0].key == k;
      } else if k == "CERT1" {
        assert listed[1].key == k;
      } else {
        assert listed[2].key == k;
      }
    }
  }

  /**
   When exactly CERT0, CERT1 and CERT2 are stored, a queryAllCerts that meets
   no error gives the array of those three pairs, in that order.
   */
  lemma QueryAllOfThree(s: State, v0: seq<char>, v1: seq<char>, v2: seq<char>, open: RangeOpen)
    requires s.Keys == {"CERT0", "CERT1", "CERT2"}
    requires s["CERT0"] == v0 && s["CERT1"] == v1 && s["CERT2"] == v2
    requires RangeScanOf(s, StartKey, EndKey, open)
    requires open.RangeOpened? && forall i :: 0 <= i < |open.results| ==> open.results[i].Got?
    ensures QueryAllCerts(s, open).response == Success(ResultArray([KV("CERT0", v0), KV("CERT1", v1), KV("CERT2", v2)]))
  {
    ThreeKeyListing(s, v0, v1, v2);
    QueryAllCertsListsRange(s, open);
    RangeListingUnique(s, StartKey, EndKey, Entries(open.results), [KV("CERT0", v0), KV("CERT1", v1), KV("CERT2", v2)]);
  }

  /**
   On a ledger seeded from empty, a queryAllCerts that meets no error lists
   exactly the three sample records, in key order.
   */
  lemma InitThenQueryAll(txId: string, open: RangeOpen)
    requires RangeScanOf(InitLedger(map[], txId).state, StartKey, EndKey, open)
    requires open.RangeOpened? && forall i :: 0 <= i < |open.results| ==> open.results[i].Got?
    ensures QueryAllCerts(InitLedger(map[], txId).state, open).response == Success(ResultArray([
      KV("CERT0", Marshal(Seeds(txId)[0])),
      KV("CERT1", Marshal(Seeds(txId)[1])),
      KV("CERT2", Marshal(Seeds(txId)[2]))
    ]))
  {
    var s := InitLedger(map[], txId).state;
    var certs := Seeds(txId);
    InitLedgerEffects(map[], txId);
    assert s.Keys == {"CERT0", "CERT1", "CERT2"};
    QueryAllOfThree(s, Marshal(certs[0]), Marshal(certs[1]), Marshal(certs[2]), open);
  }

  /** What each seed key reads back as decodes to its sample record, carrying the invocation's transaction id. */
  lemma InitLedgerStoresSeeds(s: State, txId: string)
    ensures Unmarshal(GetState(InitLedger(s, txId).state, "CERT0")) == Some(Cert("STUD0", "Arnav", "ABCD", "", "BlockVidhya", txId))
    ensures Unmarshal(GetState(InitLedger(s, txId).state, "CERT1")) == Some(Cert("STUD1", "Rachit", "SSMS", "", "BlockVidhya", txId))
    ensures Unmarshal(GetState(InitLedger(s, txId).state, "CERT2")) == Some(Cert("STUD2", "Puneet", "XJZZ", "", "BlockVidhya", txId))
  {
    var certs := Seeds(txId);
    InitLedgerEffects(s, txId);
    MarshalRoundTrip(certs[0]);
    MarshalRoundTrip(certs[1]);
    MarshalRoundTrip(certs[2]);
  }
}
