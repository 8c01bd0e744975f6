/** The room inventory's rules: the room total of a hotel, the capacity and
    pair-uniqueness invariants, and which create and update requests are
    accepted against the hotels and rooms tables. */
module Inventory {
  import opened Requests
  import opened Outcomes
  import opened Accommodations
  import opened Catalog

  /** One room entry: `quantity` physical rooms of one type and accommodation
      in hotel `hotelId`. */
  datatype Room = Room(hotelId: int, roomType: RoomType, accommodation: string, quantity: int)

  datatype RoomStoreRequest = RoomStoreRequest(
    hotelId: Option<int>, roomType: Option<string>, accommodation: Option<string>, quantity: Option<int>)

  /** The body of an update request; a `hotel_id` in it is not validated and
      never written. */
  datatype RoomUpdateRequest = RoomUpdateRequest(
    roomType: Option<string>, accommodation: Option<string>, quantity: Option<int>)

  /** What room `r` adds to the total of hotel `h`. */
  function Contribution(r: Room, h: int): int
  {
    if r.hotelId == h then r.quantity else 0
  }

  /** The quantities of hotel `h`'s rooms among the entries `ks`. */
  ghost function SumOver(rooms: map<int, Room>, ks: set<int>, h: int): int
    requires ks <= rooms.Keys
    decreases ks
  {
    if exists k :: k in ks then
      var k :| k in ks;
      Contribution(rooms[k], h) + SumOver(rooms, ks - {k}, h)
    else 0
  }

  /** The sum of the quantities of every room of hotel `h`. */
  ghost function Total(rooms: map<int, Room>, h: int): int
  {
    SumOver(rooms, rooms.Keys, h)
  }

  /** The sum may be split at any entry, whichever one the definition picks. */
  lemma {:induction false} SumOverPick(rooms: map<int, Room>, ks: set<int>, k: int, h: int)
    requires ks <= rooms.Keys && k in ks
    ensures SumOver(rooms, ks, h) == Contribution(rooms[k], h) + SumOver(rooms, ks - {k}, h)
    decreases ks
  {
    var j :| j in ks && SumOver(rooms, ks, h) == Contribution(rooms[j], h) + SumOver(rooms, ks - {j}, h);
    if j != k {
      SumOverPick(rooms, ks - {j}, k, h);
      SumOverPick(rooms, ks - {k}, j, h);
      assert ks - {j} - {k} == ks - {k} - {j};
    }
  }

  /** Two tables whose entries `ks` contribute alike have the same sum there. */
  lemma {:induction false} SumOverAgree(a: map<int, Room>, b: map<int, Room>, ks: set<int>, h: int)
    requires ks <= a.Keys && ks <= b.Keys
    requires forall k :: k in ks ==> Contribution(a[k], h) == Contribution(b[k], h)
    ensures SumOver(a, ks, h) == SumOver(b, ks, h)
    decreases ks
  {
    if exists j :: j in ks {
      var j :| j in ks;
      SumOverPick(a, ks, j, h);
      SumOverPick(b, ks, j, h);
      SumOverAgree(a, b, ks - {j}, h);
    }
  }

  /** Inserting a room adds its contribution to every hotel's total. */
  lemma TotalAfterInsert(rooms: map<int, Room>, id: int, r: Room, h: int)
    requires id !in rooms
    ensures Total(rooms[id := r], h) == Total(rooms, h) + Contribution(r, h)
  {
    var after := rooms[id := r];
    SumOverPick(after, after.Keys, id, h);
    assert after.Keys - {id} == rooms.Keys;
    SumOverAgree(after, rooms, rooms.Keys, h);
  }

  /** Replacing a room swaps its old contribution for its new one. */
  lemma TotalAfterReplace(rooms: map<int, Room>, id: int, r: Room, h: int)
    requires id in rooms
    ensures Total(rooms[id := r], h) == Total(rooms, h) - Contribution(rooms[id], h) + Contribution(r, h)
  {
    var after := rooms[id := r];
    assert after.Keys == rooms.Keys;
    SumOverPick(after, after.Keys, id, h);
    SumOverPick(rooms, rooms.Keys, id, h);
    SumOverAgree(after, rooms, rooms.Keys - {id}, h);
  }

  /** Deleting a room takes its contribution away. */
  lemma TotalAfterRemove(rooms: map<int, Room>, id: int, h: int)
    requires id in rooms
    ensures Total(rooms - {id}, h) == Total(rooms, h) - Contribution(rooms[id], h)
  {
    var after := rooms - {id};
    SumOverPick(rooms, rooms.Keys, id, h);
    assert after.Keys == rooms.Keys - {id};
    SumOverAgree(after, rooms, after.Keys, h);
  }

  /** A hotel that no room names has a total of 0. */
  lemma {:induction false} SumOverNone(rooms: map<int, Room>, ks: set<int>, h: int)
    requires ks <= rooms.Keys
    requires forall k :: k in ks ==> rooms[k].hotelId != h
    ensures SumOver(rooms, ks, h) == 0
  {
    if exists k :: k in ks {
      var j :| j in ks;
      SumOverPick(rooms, ks, j, h);
      SumOverNone(rooms, ks - {j}, h);
    }
  }

  /** Every hotel's room total is within its max_rooms. */
  ghost predicate CapacityHolds(hotels: map<int, Hotel>, rooms: map<int, Room>)
  {
    forall h :: h in hotels ==> Total(rooms, h) <= hotels[h].maxRooms
  }

  /** No hotel has two entries with the same (type, accommodation). */
  ghost predicate PairsUnique(rooms: map<int, Room>)
  {
    forall i, j :: i in rooms && j in rooms && i != j && rooms[i].hotelId == rooms[j].hotelId
      ==> rooms[i].roomType != rooms[j].roomType || rooms[i].accommodation != rooms[j].accommodation
  }

  /** Every entry has a positive quantity and an accommodation its type admits. */
  ghost predicate RoomsWellFormed(rooms: map<int, Room>)
  {
    forall k :: k in rooms ==> rooms[k].quantity >= 1 && rooms[k].accommodation in Allowed(rooms[k].roomType)
  }

  /** The duplicate check's query: hotel `h` already has an entry of this
      type and accommodation. */
  predicate PairTaken(rooms: map<int, Room>, h: int, t: RoomType, a: string)
  {
    exists k :: k in rooms && rooms[k].hotelId == h && rooms[k].roomType == t && rooms[k].accommodation == a
  }

  /** The field rules that create and update share: `type` one of the three
      names, `accommodation` present, `quantity` an integer of at least 1. */
  function ShapeErrors(roomType: Option<string>, accommodation: Option<string>, quantity: Option<int>): (errs: set<string>)
    ensures errs <= {"type", "accommodation", "quantity"}
    ensures "type" !in errs <==> roomType.Some? && ParseType(roomType.value).Some?
    ensures "accommodation" !in errs <==> Required(accommodation)
    ensures "quantity" !in errs <==> quantity.Some? && quantity.value >= 1
  {
    (if roomType.None? || ParseType(roomType.value).None? then {"type"} else {})
    + (if !Required(accommodation) then {"accommodation"} else {})
    + (if quantity.None? || quantity.value < 1 then {"quantity"} else {})
  }

  /** The fields `store` rejects: the shared rules, and `hotel_id` the id of
      an existing hotel. */
  function RoomStoreErrors(hotels: map<int, Hotel>, req: RoomStoreRequest): (errs: set<string>)
    ensures "hotel_id" !in errs <==> req.hotelId.Some? && req.hotelId.value in hotels
    ensures errs == {} <==> "hotel_id" !in errs && ShapeErrors(req.roomType, req.accommodation, req.quantity) == {}
  {
    (if req.hotelId.None? || req.hotelId.value !in hotels then {"hotel_id"} else {})
    + ShapeErrors(req.roomType, req.accommodation, req.quantity)
  }

  /** What `store` answers, checking in order: fields, accommodation for the
      type, the hotel's capacity, then a duplicate pair. */
  ghost function RoomStoreOutcome(hotels: map<int, Hotel>, rooms: map<int, Room>, req: RoomStoreRequest): (r: Result<Room>)
    ensures r.Ok? <==>
            && RoomStoreErrors(hotels, req) == {}
            && ValidAccommodation(req.roomType.value, req.accommodation.value)
            && Total(rooms, req.hotelId.value) + req.quantity.value <= hotels[req.hotelId.value].maxRooms
            && !PairTaken(rooms, req.hotelId.value, ParseType(req.roomType.value).value, req.accommodation.value)
    ensures RoomStoreErrors(hotels, req) != {} ==> r == Err(Invalid(RoomStoreErrors(hotels, req)))
    ensures RoomStoreErrors(hotels, req) == {} && !ValidAccommodation(req.roomType.value, req.accommodation.value)
            ==> r == Err(InvalidAccommodation)
    ensures RoomStoreErrors(hotels, req) == {} && ValidAccommodation(req.roomType.value, req.accommodation.value)
            ==> (r == Err(CapacityExceeded) <==>
                 Total(rooms, req.hotelId.value) + req.quantity.value > hotels[req.hotelId.value].maxRooms)
    ensures r.Ok? ==> req == RoomStoreRequest(Some(r.value.hotelId), Some(TypeName(r.value.roomType)),
                                              Some(r.value.accommodation), Some(r.value.quantity))
    ensures r.Ok? ==> r.value.hotelId in hotels && r.value.quantity >= 1
                      && r.value.accommodation in Allowed(r.value.roomType)
                      && Total(rooms, r.value.hotelId) + r.value.quantity <= hotels[r.value.hotelId].maxRooms
                      && !PairTaken(rooms, r.value.hotelId, r.value.roomType, r.value.accommodation)
    ensures r == Err(DuplicateRoomType) <==>
            r != Err(CapacityExceeded) && RoomStoreErrors(hotels, req) == {}
            && ValidAccommodation(req.roomType.value, req.accommodation.value)
            && PairTaken(rooms, req.hotelId.value, ParseType(req.roomType.value).value, req.accommodation.value)
  {
    var errs := RoomStoreErrors(hotels, req);
    if errs != {} then Err(Invalid(errs))
    else if !ValidAccommodation(req.roomType.value, req.accommodation.value) then Err(InvalidAccommodation)
    else
      var h, t, a, q := req.hotelId.value, ParseType(req.roomType.value).value, req.accommodation.value, req.quantity.value;
      if Total(rooms, h) + q > hotels[h].maxRooms then Err(CapacityExceeded)
      else if PairTaken(rooms, h, t, a) then Err(DuplicateRoomType)
      else Ok(Room(h, t, a, q))
  }

  /** What `update` of room `id` answers: not found, failed fields, an
      accommodation the type does not admit, a failure when the room's hotel
      is gone, the capacity check with the room's own old quantity taken
      out, or the updated room. There is no duplicate check. */
  ghost function RoomUpdateOutcome(hotels: map<int, Hotel>, rooms: map<int, Room>, id: int, req: RoomUpdateRequest): (r: Result<Room>)
    ensures id !in rooms ==> r == Err(NotFound)
    ensures id in rooms && ShapeErrors(req.roomType, req.accommodation, req.quantity) != {}
            ==> r == Err(Invalid(ShapeErrors(req.roomType, req.accommodation, req.quantity)))
    ensures id in rooms && ShapeErrors(req.roomType, req.accommodation, req.quantity) == {}
            && !ValidAccommodation(req.roomType.value, req.accommodation.value)
            ==> r == Err(InvalidAccommodation)
    ensures id in rooms && ShapeErrors(req.roomType, req.accommodation, req.quantity) == {}
            && ValidAccommodation(req.roomType.value, req.accommodation.value) && rooms[id].hotelId !in hotels
            ==> r == Err(ServerError)
    ensures r.Ok? <==>
            && id in rooms
            && ShapeErrors(req.roomType, req.accommodation, req.quantity) == {}
            && ValidAccommodation(req.roomType.value, req.accommodation.value)
            && rooms[id].hotelId in hotels
            && Total(rooms, rooms[id].hotelId) - rooms[id].quantity + req.quantity.value
               <= hotels[rooms[id].hotelId].maxRooms
    ensures id in rooms && ShapeErrors(req.roomType, req.accommodation, req.quantity) == {}
            && ValidAccommodation(req.roomType.value, req.accommodation.value) && rooms[id].hotelId in hotels
            ==> (r == Err(CapacityExceeded) <==>
                 Total(rooms, rooms[id].hotelId) - rooms[id].quantity + req.quantity.value > hotels[rooms[id].hotelId].maxRooms)
    ensures r.Ok? ==> id in rooms && r.value.hotelId == rooms[id].hotelId && r.value.hotelId in hotels
    ensures r.Ok? ==> req == RoomUpdateRequest(Some(TypeName(r.value.roomType)), Some(r.value.accommodation),
                                               Some(r.value.quantity))
    ensures r.Ok? ==> r.value.quantity >= 1 && r.value.accommodation in Allowed(r.value.roomType)
                      && Total(rooms, r.value.hotelId) - rooms[id].quantity + r.value.quantity
                         <= hotels[r.value.hotelId].maxRooms
  {
    if id !in rooms then Err(NotFound)
    else
      var errs := ShapeErrors(req.roomType, req.accommodation, req.quantity);
      if errs != {} then Err(Invalid(errs))
      else if !ValidAccommodation(req.roomType.value, req.accommodation.value) then Err(InvalidAccommodation)
      else
        var room := rooms[id];
        var h, t, a, q := room.hotelId, ParseType(req.roomType.value).value, req.accommodation.value, req.quantity.value;
        if h !in hotels then Err(ServerError)
        else if Total(rooms, h) - room.quantity + q > hotels[h].maxRooms then Err(CapacityExceeded)
        else Ok(Room(h, t, a, q))
  }

  /** A hotel inserted under an id that no room names starts with no rooms,
      so an accepted hotel `store` keeps every hotel within its capacity. */
  lemma StoreHotelKeepsCapacity(hotels: map<int, Hotel>, rooms: map<int, Room>, req: HotelRequest, id: int)
    requires CapacityHolds(hotels, rooms)
    requires forall k :: k in rooms ==> rooms[k].hotelId != id
    requires HotelStoreOutcome(hotels, req).Ok?
    ensures Total(rooms, id) == 0
    ensures CapacityHolds(hotels[id := HotelStoreOutcome(hotels, req).value], rooms)
  {
    SumOverNone(rooms, rooms.Keys, id);
  }

  /** An accepted `store` keeps every hotel within its capacity. */
  lemma StoreRoomKeepsCapacity(hotels: map<int, Hotel>, rooms: map<int, Room>, req: RoomStoreRequest, id: int)
    requires CapacityHolds(hotels, rooms) && id !in rooms
    requires RoomStoreOutcome(hotels, rooms, req).Ok?
    ensures CapacityHolds(hotels, rooms[id := RoomStoreOutcome(hotels, rooms, req).value])
  {
    var r := RoomStoreOutcome(hotels, rooms, req).value;
    forall h | h in hotels ensures Total(rooms[id := r], h) <= hotels[h].maxRooms {
      TotalAfterInsert(rooms, id, r, h);
    }
  }

  /** An accepted `store` never introduces a duplicate pair. */
  lemma StoreRoomKeepsPairsUnique(hotels: map<int, Hotel>, rooms: map<int, Room>, req: RoomStoreRequest, id: int)
    requires PairsUnique(rooms) && id !in rooms
    requires RoomStoreOutcome(hotels, rooms, req).Ok?
    ensures PairsUnique(rooms[id := RoomStoreOutcome(hotels, rooms, req).value])
  {
  }

  /** An accepted `update` keeps every hotel within its capacity. */
  lemma UpdateRoomKeepsCapacity(hotels: map<int, Hotel>, rooms: map<int, Room>, id: int, req: RoomUpdateRequest)
    requires CapacityHolds(hotels, rooms)
    requires RoomUpdateOutcome(hotels, rooms, id, req).Ok?
    ensures CapacityHolds(hotels, rooms[id := RoomUpdateOutcome(hotels, rooms, id, req).value])
  {
    var r := RoomUpdateOutcome(hotels, rooms, id, req).value;
    forall h | h in hotels ensures Total(rooms[id := r], h) <= hotels[h].maxRooms {
      TotalAfterReplace(rooms, id, r, h);
    }
  }

  /** Deleting a room can only lower a hotel's total, since every quantity
      is positive; capacity is kept. */
  lemma DestroyRoomKeepsCapacity(hotels: map<int, Hotel>, rooms: map<int, Room>, id: int)
    requires CapacityHolds(hotels, rooms) && RoomsWellFormed(rooms) && id in rooms
    ensures CapacityHolds(hotels, rooms - {id})
    ensures forall h :: h in hotels ==> Total(rooms - {id}, h) <= Total(rooms, h)
  {
    forall h | h in hotels ensures Total(rooms - {id}, h) <= Total(rooms, h) {
      TotalAfterRemove(rooms, id, h);
    }
  }
}
