/** The hotel catalog's rules: which create and update requests the validator
    accepts against the hotels table, and the hotel each accepted request
    writes. */
module Catalog {
  import opened Requests
  import opened Outcomes

  datatype Hotel = Hotel(name: string, address: string, city: string, nit: string, maxRooms: int)

  /** The body of a create or update request. */
  datatype HotelRequest = HotelRequest(
    name: Option<string>, address: Option<string>, city: Option<string>,
    nit: Option<string>, maxRooms: Option<int>)

  /** No two hotels share a name. */
  ghost predicate NamesUnique(hotels: map<int, Hotel>)
  {
    forall i, j :: i in hotels && j in hotels && i != j ==> hotels[i].name != hotels[j].name
  }

  /** No two hotels share a nit. */
  ghost predicate NitsUnique(hotels: map<int, Hotel>)
  {
    forall i, j :: i in hotels && j in hotels && i != j ==> hotels[i].nit != hotels[j].nit
  }

  /** The `unique:hotels,name` rule's query: some row already has this name. */
  predicate NameInUse(hotels: map<int, Hotel>, name: string)
  {
    exists k :: k in hotels && hotels[k].name == name
  }

  /** The `unique:hotels,nit` rule's query: some row already has this nit. */
  predicate NitInUse(hotels: map<int, Hotel>, nit: string)
  {
    exists k :: k in hotels && hotels[k].nit == nit
  }

  /** The fields the two actions validate alike: name and nit required and
      unique among `others`, address and city required. */
  function IdentityErrors(others: map<int, Hotel>, req: HotelRequest): (errs: set<string>)
    ensures errs <= {"name", "address", "city", "nit"}
    ensures "name" !in errs <==> Required(req.name) && forall k :: k in others ==> others[k].name != req.name.value
    ensures "nit" !in errs <==> Required(req.nit) && forall k :: k in others ==> others[k].nit != req.nit.value
    ensures "address" !in errs <==> Required(req.address)
    ensures "city" !in errs <==> Required(req.city)
  {
    (if !Required(req.name) || NameInUse(others, req.name.value) then {"name"} else {})
    + (if !Required(req.address) then {"address"} else {})
    + (if !Required(req.city) then {"city"} else {})
    + (if !Required(req.nit) || NitInUse(others, req.nit.value) then {"nit"} else {})
  }

  /** The fields `store` rejects: uniqueness against every hotel, and
      `max_rooms` an integer of at least 1. */
  function HotelStoreErrors(hotels: map<int, Hotel>, req: HotelRequest): (errs: set<string>)
    ensures "name" !in errs ==> req.name.Some? && forall k :: k in hotels ==> hotels[k].name != req.name.value
    ensures "nit" !in errs ==> req.nit.Some? && forall k :: k in hotels ==> hotels[k].nit != req.nit.value
    ensures "max_rooms" !in errs <==> req.maxRooms.Some? && req.maxRooms.value >= 1
    ensures errs == {} <==> IdentityErrors(hotels, req) == {} && req.maxRooms.Some? && req.maxRooms.value >= 1
  {
    IdentityErrors(hotels, req)
    + (if req.maxRooms.None? || req.maxRooms.value < 1 then {"max_rooms"} else {})
  }

  /** The fields `update` of hotel `id` rejects: uniqueness against every
      hotel except `id` itself, and `max_rooms` any integer at all. */
  function HotelUpdateErrors(hotels: map<int, Hotel>, id: int, req: HotelRequest): (errs: set<string>)
    ensures "name" !in errs ==> req.name.Some? && forall k :: k in hotels && k != id ==> hotels[k].name != req.name.value
    ensures "nit" !in errs ==> req.nit.Some? && forall k :: k in hotels && k != id ==> hotels[k].nit != req.nit.value
    ensures "max_rooms" !in errs <==> req.maxRooms.Some?
    ensures errs == {} <==> IdentityErrors(hotels - {id}, req) == {} && req.maxRooms.Some?
  {
    var others := hotels - {id};
    assert forall k :: k in hotels && k != id ==> k in others && others[k] == hotels[k];
    IdentityErrors(others, req)
    + (if req.maxRooms.None? then {"max_rooms"} else {})
  }

  /** The hotel a validated request writes: its five fields as sent. */
  function HotelFrom(req: HotelRequest): Hotel
    requires req.name.Some? && req.address.Some? && req.city.Some? && req.nit.Some? && req.maxRooms.Some?
  {
    Hotel(req.name.value, req.address.value, req.city.value, req.nit.value, req.maxRooms.value)
  }

  /** What `store` answers: the new hotel, or the failed fields. */
  function HotelStoreOutcome(hotels: map<int, Hotel>, req: HotelRequest): (r: Result<Hotel>)
    ensures r.Ok? <==> HotelStoreErrors(hotels, req) == {}
    ensures r.Err? ==> r.error == Invalid(HotelStoreErrors(hotels, req))
    ensures r.Ok? ==> req == HotelRequest(Some(r.value.name), Some(r.value.address), Some(r.value.city),
                                          Some(r.value.nit), Some(r.value.maxRooms))
    ensures r.Ok? ==> r.value.maxRooms >= 1 && !NameInUse(hotels, r.value.name) && !NitInUse(hotels, r.value.nit)
  {
    var errs := HotelStoreErrors(hotels, req);
    if errs != {} then Err(Invalid(errs)) else Ok(HotelFrom(req))
  }

  /** What `update` of hotel `id` answers: not found, the failed fields, or
      the hotel's new record. */
  function HotelUpdateOutcome(hotels: map<int, Hotel>, id: int, req: HotelRequest): (r: Result<Hotel>)
    ensures id !in hotels ==> r == Err(NotFound)
    ensures id in hotels && HotelUpdateErrors(hotels, id, req) != {}
            ==> r == Err(Invalid(HotelUpdateErrors(hotels, id, req)))
    ensures r.Ok? <==> id in hotels && HotelUpdateErrors(hotels, id, req) == {}
    ensures r.Ok? ==> req == HotelRequest(Some(r.value.name), Some(r.value.address), Some(r.value.city),
                                          Some(r.value.nit), Some(r.value.maxRooms))
    ensures r.Ok? ==> !NameInUse(hotels - {id}, r.value.name) && !NitInUse(hotels - {id}, r.value.nit)
  {
    if id !in hotels then Err(NotFound)
    else
      var errs := HotelUpdateErrors(hotels, id, req);
      if errs != {} then Err(Invalid(errs)) else Ok(HotelFrom(req))
  }

  /** An accepted `store` keeps names and nits unique. */
  lemma StoreHotelKeepsUnique(hotels: map<int, Hotel>, req: HotelRequest, id: int)
    requires NamesUnique(hotels) && NitsUnique(hotels)
    requires id !in hotels && HotelStoreOutcome(hotels, req).Ok?
    ensures NamesUnique(hotels[id := HotelStoreOutcome(hotels, req).value])
    ensures NitsUnique(hotels[id := HotelStoreOutcome(hotels, req).value])
  {
  }

  /** An accepted `update` keeps names and nits unique. */
  lemma UpdateHotelKeepsUnique(hotels: map<int, Hotel>, id: int, req: HotelRequest)
    requires NamesUnique(hotels) && NitsUnique(hotels)
    requires HotelUpdateOutcome(hotels, id, req).Ok?
    ensures NamesUnique(hotels[id := HotelUpdateOutcome(hotels, id, req).value])
    ensures NitsUnique(hotels[id := HotelUpdateOutcome(hotels, id, req).value])
  {
  }

  /** Update's uniqueness ignores the hotel's own row: a hotel may resend its
      own name and nit, but a name or nit held by another hotel is rejected. */
  lemma UpdateUniquenessExcludesSelf(hotels: map<int, Hotel>, id: int, req: HotelRequest)
    requires NamesUnique(hotels) && NitsUnique(hotels) && id in hotels
    requires Required(req.name) && Required(req.nit)
    ensures req.name.value == hotels[id].name ==> "name" !in HotelUpdateErrors(hotels, id, req)
    ensures req.nit.value == hotels[id].nit ==> "nit" !in HotelUpdateErrors(hotels, id, req)
    ensures (exists k :: k in hotels && k != id && hotels[k].name == req.name.value)
            ==> "name" in HotelUpdateErrors(hotels, id, req)
    ensures (exists k :: k in hotels && k != id && hotels[k].nit == req.nit.value)
            ==> "nit" in HotelUpdateErrors(hotels, id, req)
  {
  }

  /** The two actions disagree on `max_rooms`: a request that sends 0 (or any
      integer below 1) is rejected by `store` but accepted by `update`. */
  lemma MaxRoomsLowerBoundOnlyOnStore(hotels: map<int, Hotel>, id: int, req: HotelRequest)
    requires id in hotels && req.maxRooms.Some? && req.maxRooms.value < 1
    requires IdentityErrors(hotels - {id}, req) == {}
    ensures HotelStoreOutcome(hotels, req) == Err(Invalid(HotelStoreErrors(hotels, req)))
    ensures "max_rooms" in HotelStoreErrors(hotels, req)
    ensures HotelUpdateOutcome(hotels, id, req).Ok?
    ensures HotelUpdateOutcome(hotels, id, req).value.maxRooms == req.maxRooms.value
  {
  }
}
