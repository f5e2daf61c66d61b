/**
 The certificate record and its stored form. Fields are written in the order
 the struct declares them, under their JSON tags.
 */
module Certs {
  import opened Wrappers
  import Json

  datatype Cert = Cert(
    id: string,           // tag "id"
    name: string,         // tag "sname"
    certName: string,     // tag "cname"
    certDetails: string,  // tag "cdets"
    organisation: string, // tag "org"
    txHash: string        // tag "txhash"
  )

  const FieldNames: seq<string> := ["id", "sname", "cname", "cdets", "org", "txhash"]

  function FieldValues(c: Cert): seq<string> {
    [c.id, c.name, c.certName, c.certDetails, c.organisation, c.txHash]
  }

  /** The JSON object json.Marshal writes for a Cert: one string member per field. */
  function Marshal(c: Cert): string {
    Json.Encode(Json.StringObject(FieldNames, FieldValues(c)))
  }

  function Unmarshal(s: string): Option<Cert> {
    match Json.DecodeObject(FieldNames, s)
    case None => None
    case Some(v) => Some(Cert(v[0], v[1], v[2], v[3], v[4], v[5]))
  }

  lemma MarshalRoundTrip(c: Cert)
    ensures Unmarshal(Marshal(c)) == Some(c)
  {
    Json.ObjectRoundTrip(FieldNames, FieldValues(c));
  }

  /** Distinct records are stored as distinct values. */
  lemma MarshalInjective(a: Cert, b: Cert)
    requires Marshal(a) == Marshal(b)
    ensures a == b
  {
    MarshalRoundTrip(a);
    MarshalRoundTrip(b);
  }
}
