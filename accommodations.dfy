/** The fixed table of accommodation values each room type admits, and the
    check that a (type, accommodation) pair is listed in it. */
module Accommodations {
  import opened Requests

  datatype RoomType = Standard | Junior | Suite

  /** The literal spelling of each type, as the `in:Standard,Junior,Suite`
      rule and the table keys write it. */
  function TypeName(t: RoomType): string
  {
    match t
    case Standard => "Standard"
    case Junior => "Junior"
    case Suite => "Suite"
  }

  /** The `in:Standard,Junior,Suite` rule: exactly the three names are types. */
  function ParseType(s: string): (r: Option<RoomType>)
    ensures r.Some? ==> TypeName(r.value) == s
    ensures r.None? ==> s != "Standard" && s != "Junior" && s != "Suite"
  {
    if s == "Standard" then Some(Standard)
    else if s == "Junior" then Some(Junior)
    else if s == "Suite" then Some(Suite)
    else None
  }

  /** Each type's own name parses back to that type. */
  lemma ParseTypeName(t: RoomType)
    ensures ParseType(TypeName(t)) == Some(t)
  {
  }

  /** The table: the accommodations listed for each type. */
  function Allowed(t: RoomType): seq<string>
  {
    match t
    case Standard => ["Sencilla", "Doble"]
    case Junior => ["Triple", "Cuadruple"]
    case Suite => ["Sencilla", "Doble", "Triple"]
  }

  /** The four accommodation values that appear anywhere in the table. */
  const AccommodationValues: set<string> := {"Sencilla", "Doble", "Triple", "Cuadruple"}

  /** The check: the type has a row in the table and the accommodation is
      listed in that row; anything else is rejected. */
  function ValidAccommodation(typeName: string, accommodation: string): (ok: bool)
    ensures ok ==> ParseType(typeName).Some?
    ensures ok ==> accommodation in AccommodationValues
    ensures ok <==> exists t :: ParseType(typeName) == Some(t) && accommodation in Allowed(t)
  {
    match ParseType(typeName)
    case None => false
    case Some(t) => accommodation in Allowed(t)
  }

  /** The seven pairs the table admits, written out one by one. */
  const AcceptedPairs: set<(string, string)> := {
    ("Standard", "Sencilla"), ("Standard", "Doble"),
    ("Junior", "Triple"), ("Junior", "Cuadruple"),
    ("Suite", "Sencilla"), ("Suite", "Doble"), ("Suite", "Triple")
  }

  /** The table accepts exactly the listed pairs and rejects every other pair. */
  lemma AccommodationTable(typeName: string, accommodation: string)
    ensures ValidAccommodation(typeName, accommodation) <==> (typeName, accommodation) in AcceptedPairs
  {
  }
}
