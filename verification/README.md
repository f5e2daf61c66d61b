# Certificate chaincode model

A Dafny model of `issue.go`, a Hyperledger Fabric chaincode that keeps
certificate records in the peer's world state. Four functions are reachable
through `Invoke`:

- `queryCert` reads one key;
- `createCert` stores one JSON-encoded record;
- `initLedger` seeds three sample records under `CERT0`, `CERT1` and `CERT2`;
- `queryAllCerts` renders the range `[CERT0, CERT999)` as a JSON array.

Each handler is a pure function over the world state, a `map<string, seq<char>>`.
It takes the state before the call, the call's arguments and the transaction id
that `GetTxID` returns during the invocation. It gives an `Outcome`: the
response, the state after the call, and the `PutState` calls it made, in order.
The state after a call is always the state before with those writes applied
(`Ledger.Apply`).

`GetStateByRange` is an input to the model, a `RangeOpen` value. It holds
either the error from opening the iterator, or the results of the `Next`
calls made while `HasNext` held. Each result is a key/value pair or an error.
The predicate `Ledger.RangeScanOf` says what the peer guarantees of that
input:
- every pair yielded lies in the interval and matches the state;
- keys ascend strictly;
- a scan that meets no error yields every key of the interval.

Modules:

| module | what it holds |
|---|---|
| `Wrappers` | `Option` |
| `Text` | decimal rendering (as `strconv.Itoa` writes it), lexicographic key order, joining |
| `Json` | a JSON value type, its encoder in Go's member order, and a decoder for string-valued objects |
| `Ledger` | the state, writes, and range-iterator results |
| `Peer` | responses and outcomes |
| `Certs` | the `Cert` record and its encoding |
| `Query` | `queryAllCerts` and its buffer loop |
| `Chaincode` | the other handlers and `Invoke` |

initLedger calls `GetTxID` three times. Within one invocation it returns the
same id each time, so all three sample records carry that id.

## Model

| member | source | states |
|---|---|---|
| Chaincode.Invoke | issue.go:29-45 | each of the four function names is routed to its handler; any other name gives the error "Invalid Smart Contract function name." with the state unchanged and no write |
| Chaincode.InvokeEffects | issue.go:29-45 | whatever is invoked, the state afterwards is the state before with the call's writes applied; an error response comes with no write and an unchanged state; queryCert and queryAllCerts never write |
| Chaincode.QueryCert | issue.go:47-55 | a count other than one argument gives the "Expecting 1" error; otherwise the value stored under the key, or an empty payload when the key is absent; never writes |
| Chaincode.CreateCert | issue.go:79-93 | a count other than five gives the "Expecting 5" error with no write; otherwise success with exactly one write, to args[0], no other key changed, and the stored value decodes to the record (args[1], args[2], args[3], empty details, args[4], the transaction id) |
| Chaincode.NewCert | issue.go:87 | the record createCert builds: ID args[1], Name args[2], CertName args[3], empty CertDetails, Organisation args[4], TxHash the transaction id; a definition, whose stored form is stated by Chaincode.CreateCert and Chaincode.CreateThenQuery |
| Chaincode.CreateThenQuery | issue.go:79-93 | a record created under a key is what queryCert then reads back under it |
| Chaincode.CertKey | issue.go:71 | the key "CERT" followed by the decimal digits of i, and those digits read back as i |
| Chaincode.CertKeyInjective | issue.go:71 | distinct loop indices give distinct keys "CERT" + decimal |
| Chaincode.Seeds | issue.go:58-65 | three sample records, each with empty details and the invocation's transaction id |
| Chaincode.SeedWrites | issue.go:67-74 | the seeding loop from iteration i on issues one write per remaining record, the j-th under CertKey(i + j) holding that record's encoding |
| Chaincode.SeedLoopStoresEach | issue.go:67-74 | after the seeding loop, each record is stored under its key, whatever was there before |
| Chaincode.SeedLoopOfThree | issue.go:67-74 | over three records the loop writes CERT0, CERT1, CERT2, in that order |
| Chaincode.InitLedger | issue.go:57-77 | success, and the PutState calls are exactly CERT0, CERT1, CERT2 in that order, each holding the matching sample record's encoding; the state afterwards is the state before with those writes applied |
| Chaincode.InitLedgerEffects | issue.go:67-74 | after initLedger the keys gained are exactly CERT0, CERT1, CERT2, which hold the three encoded sample records, and every other key is unchanged |
| Chaincode.InitLedgerStoresSeeds | issue.go:61-71 | what each seed key reads back as decodes to its sample record (STUD0/Arnav/ABCD, STUD1/Rachit/SSMS, STUD2/Puneet/XJZZ, BlockVidhya) carrying the transaction id |
| Chaincode.ThreeWrites | issue.go:67-74 | three writes to CERT0, CERT1, CERT2 store their values there, add exactly those keys and leave every other key alone |
| Chaincode.ThreeKeyListing | issue.go:97-100 | a state holding exactly CERT0, CERT1, CERT2 has those three pairs, in that order, as its listing of [CERT0, CERT999) |
| Chaincode.QueryAllOfThree | issue.go:95-136 | on such a state, a queryAllCerts that meets no error answers with the array of those three pairs in key order |
| Chaincode.InitThenQueryAll | issue.go:95-136 | on a ledger seeded from empty, a queryAllCerts that meets no error lists exactly the three encoded sample records under CERT0, CERT1, CERT2 |
| Query.QueryAllCerts | issue.go:95-136 | never writes; an error opening the iterator is the response; otherwise the rendering of the iterator's results |
| Query.Render | issue.go:111-131 | success exactly when every Next call yielded a pair; an error response carries the message of a Next call that failed |
| Query.QueryAllCertsListsRange | issue.go:97-135 | no writes; success exactly when the iterator opens and every Next succeeds; then the payload is the array of exactly the stored pairs with keys in [CERT0, CERT999), ascending |
| Query.RangeListingUnique | issue.go:97-100 | a state has one ascending listing of an interval, so the array depends only on the state |
| Query.ListingKeysAgree | issue.go:97-100 | two listings of the same interval of a state list the same keys in the same order |
| Query.BufferResults | issue.go:106-135 | the buffer loop answers with the first Next error, or with "[" + the items joined by "," + "]" |
| Query.ResultArray | issue.go:108-131 | "[" + the items joined by "," + "]"; the reference definition that Query.BufferResults is proved equal to and Query.ResultArrayShape measures |
| Query.WriteMember | issue.go:116-129 | one loop pass appends a comma exactly when an item was already written, then the item {"Key":"key", "Record":value} with the value copied verbatim |
| Query.Item | issue.go:120-128 | the text of one array item; a definition, whose writes are stated by Query.WriteMember |
| Query.FirstItemAppended | issue.go:116-128 | the first item goes into the buffer with no comma before it |
| Query.ItemAppended | issue.go:116-128 | each later item adds one comma and the item to the joined prefix |
| Query.ResultArrayShape | issue.go:108-131 | no pairs give "[]"; otherwise the length is the brackets, the items, and one comma between each pair of items |
| Ledger.Apply | issue.go:71 | writes issued in order add exactly the written keys and leave unwritten keys unchanged |
| Ledger.ApplyLastWrite | issue.go:71 | a key holds the value of the last write to it |
| Ledger.Failure | issue.go:111-115 | there is no failure exactly when every Next call yielded a pair |
| Ledger.FailureAt | issue.go:111-115 | the error reported is that of the first Next call that failed |
| Ledger.FailureWitness | issue.go:111-115 | a reported error is the message of some Next call that failed |
| Ledger.Entries | issue.go:111-112 | when no Next call failed, the pairs are the results in iteration order |
| Ledger.GetState | issue.go:53 | the read of queryCert: the stored value, or empty when the key is absent, with no error; a definition, whose use is stated by Chaincode.QueryCert |
| Ledger.RangeScanOf | issue.go:100 | what GetStateByRange over [lo, hi) is taken to yield: pairs in the interval matching the state, keys strictly ascending, and every key of the interval when no Next fails; a definition assumed by Query.QueryAllCerts |
| Certs.MarshalRoundTrip | issue.go:16-23 | decoding the stored encoding of a record gives back the record |
| Certs.MarshalInjective | issue.go:16-23 | distinct records are stored as distinct values |
| Certs.Marshal | issue.go:89 | the stored encoding of a record; a definition, whose inverse is stated by Certs.MarshalRoundTrip |
| Json.UnescapeEscape | issue.go:89 | an escaped string body followed by a quote reads back as the body, and the text after it is left over |
| Json.DecodeFieldsRoundTrip | issue.go:89 | the encoded members of a string-valued object, from any position on, decode back to their values |
| Json.ObjectRoundTrip | issue.go:89 | decoding the encoding of a string-valued object gives back its member values |
| Json.StringObject | issue.go:16-23 | the object json.Marshal writes for a Cert, one string member per field in declaration order; a definition, whose inverse is stated by Json.ObjectRoundTrip |
| Json.Escape | issue.go:89 | the escaping of a string body: a backslash before each quote and backslash; a definition, whose inverse is stated by Json.UnescapeEscape (narrower than Go, see Left out) |
| Text.Decimal | issue.go:71 | the rendering of a number is a non-empty run of decimal digits |
| Text.DecimalRoundTrip | issue.go:71 | reading back the rendering of a number gives the number |
| Text.DecimalInjective | issue.go:71 | distinct numbers render differently |
| Text.JoinSnoc | issue.go:116-119 | joining one more item adds one separator and the item at the end |
| Text.JoinLength | issue.go:116-119 | a joined text is as long as its items plus one separator between each adjacent pair |
| Text.BelowTransitive | issue.go:100 | the key order of range queries is transitive |
| Text.BelowTotal | issue.go:100 | any two keys are equal or ordered one way or the other |
| Text.BelowIrreflexive | issue.go:100 | no key is below itself |
| Text.Below | issue.go:100 | the key order of the range query: lexicographic by code point, a proper prefix first; a definition, whose order laws are Text.BelowIrreflexive, Text.BelowTransitive and Text.BelowTotal |

## Left out

- `main` and `Init` (issue.go:25-27, 138-145): they only start the process and answer `Init` with success. No state is involved.
- Logging (`fmt.Println`, `fmt.Printf`): it has no effect on state or responses.
- The iterator's `Close` (issue.go:104): releasing the iterator has no observable effect in this model.
- The response wire format and payload bytes: payloads are sequences of characters, and `shim.Success(nil)` is an empty payload.
- Json.Escape: escapes only the quote and the backslash. Go's encoder also escapes control characters, `<`, `>`, `&`, U+2028, U+2029 and invalid UTF-8. No sample record contains such characters, but createCert arguments could.
- Ledger.GetState: a read never fails. The source discards GetState's error, and an absent key gives an empty payload as modelled.
- Chaincode.CreateCert: the write always lands. The source discards PutState's error, so the response is Success either way. The model stores the record under the empty key, where the peer's PutState refuses it and stores nothing.
- Text.Below: compares keys character by character. The peer compares the UTF-8 bytes, which gives the same order on code points.
- Range-query paging, key versions, read/write sets, commit and replication: these belong to the peer, not to this chaincode.
- Ledger.RangeScanOf: what the peer guarantees of a range scan is assumed as a precondition, not derived from a model of the peer's store.
