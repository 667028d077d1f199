/**
 * The rows of the Airtable "Submissions" table as the client library hands
 * them back: a record id plus a map of the non-empty fields. The client's
 * network calls are not modelled; their outcomes are values of `Lookup`.
 */
module Airtable {
  import opened JsValues

  /** Name of the table the tracking function queries and the cleanup script clears. */
  const SubmissionsTable: string := "Submissions"

  /** A record: Airtable omits empty fields from `fields`. */
  datatype Record = Record(id: string, fields: map<string, Json>)

  /** `record.fields.<name>`. */
  function Field(r: Record, name: string): (v: Option<Json>)
    ensures v.Some? <==> name in r.fields
  {
    Get(r.fields, name)
  }

  /** What `select(...).all()` resolves to, or the message of the error it throws. */
  datatype Lookup = Records(records: seq<Record>) | LookupFailed(message: string)

  /** The ids of a sequence of records, in order (`records.map((r) => r.id)`). */
  function Ids(rs: seq<Record>): (ids: seq<string>)
    ensures |ids| == |rs|
    ensures forall i :: 0 <= i < |rs| ==> ids[i] == rs[i].id
  {
    seq(|rs|, i requires 0 <= i < |rs| => rs[i].id)
  }
}
