/**
 * The scan payload: what `JSON.parse` makes of the raw text of the first
 * barcode, and how the page reads the name and the employee id out of it
 * with the `|| "Unknown"` fallback (src/pages/TestPage.tsx:27-29).
 */
module Payload {
  import opened Wrappers

  /**
   * What `JSON.parse` returns, reduced to what the page looks at. The parser
   * itself is foreign code; a caller supplies it as a function to this type.
   */
  datatype ParseResult =
    | Malformed                            // JSON.parse throws a SyntaxError
    | Null                                 // the text is `null`: reading `.Name` on it throws
    | Scalar                               // a number, string, boolean or array: neither key is an own property
    | Object(fields: map<string, string>)  // an object; its "Name" / "Employee ID" members, where present, are strings

  /** The name and employee id a scan identifies. */
  datatype Identity = Identity(name: string, employeeId: string)

  const Unknown: string := "Unknown"
  const NameKey: string := "Name"
  const IdKey: string := "Employee ID"

  /** JavaScript truthiness of a string: only the empty string is falsy. */
  predicate Truthy(s: string) {
    s != ""
  }

  /** `v || "Unknown"`: a missing or falsy value gives way to the sentinel. */
  function OrUnknown(v: Option<string>): (r: string)
    ensures Truthy(r)
    ensures v.Some? && Truthy(v.value) ==> r == v.value
    ensures v.None? || !Truthy(v.value) ==> r == Unknown
  {
    if v.Some? && Truthy(v.value) then v.value else Unknown
  }

  /**
   * Steps 2 and 3 of a scan: None is the catch branch (a parse error, or the
   * TypeError of reading a member of `null`); otherwise the identity read
   * from the payload.
   */
  function Extract(p: ParseResult): (r: Option<Identity>)
    ensures r.None? <==> p.Malformed? || p.Null?
    ensures r.Some? ==> Truthy(r.value.name) && Truthy(r.value.employeeId)
    ensures r.Some? && p.Scalar? ==> r.value == Identity(Unknown, Unknown)
  {
    if p.Malformed? || p.Null? then None
    else
      // `parsedData[key]`: the member's value, or `undefined` when there is none
      var name := if p.Object? && NameKey in p.fields then Some(p.fields[NameKey]) else None;
      var id := if p.Object? && IdKey in p.fields then Some(p.fields[IdKey]) else None;
      Some(Identity(OrUnknown(name), OrUnknown(id)))
  }

  /**
   * For an object payload, each field falls back to "Unknown" exactly when
   * its key is missing or holds the empty string, and is the payload's own
   * value otherwise.
   */
  lemma ObjectFields(fields: map<string, string>)
    ensures Extract(Object(fields)).Some?
    ensures var who := Extract(Object(fields)).value;
      && (NameKey in fields && fields[NameKey] != "" ==> who.name == fields[NameKey])
      && (NameKey !in fields || fields[NameKey] == "" ==> who.name == Unknown)
      && (IdKey in fields && fields[IdKey] != "" ==> who.employeeId == fields[IdKey])
      && (IdKey !in fields || fields[IdKey] == "" ==> who.employeeId == Unknown)
  {
  }

  /** The name read from an object payload is "Unknown" exactly when the key is missing, empty or itself "Unknown". */
  lemma UnknownNameIff(fields: map<string, string>)
    ensures Extract(Object(fields)).value.name == Unknown
        <==> NameKey !in fields || fields[NameKey] in {"", Unknown}
  {
  }

  /** The same for the employee id. */
  lemma UnknownIdIff(fields: map<string, string>)
    ensures Extract(Object(fields)).value.employeeId == Unknown
        <==> IdKey !in fields || fields[IdKey] in {"", Unknown}
  {
  }
}
