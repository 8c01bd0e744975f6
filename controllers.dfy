/** The two controllers' actions over the application's tables: each action
    reads the tables, validates, and then inserts, updates or deletes one row
    in place. */
module Controllers {
  import opened Requests
  import opened Outcomes
  import opened Accommodations
  import opened Catalog
  import opened Inventory

  /** A room answered together with the hotel it belongs to (absent when the
      hotel row is gone). */
  datatype RoomWithHotel = RoomWithHotel(room: Room, hotel: Option<Hotel>)

  /** The hotels and rooms tables, keyed by id, and the next id each
      table's auto-increment hands out. */
  class Tables {
    var hotels: map<int, Hotel>
    var rooms: map<int, Room>
    var nextHotelId: nat
    var nextRoomId: nat

    /** What every action keeps: ids below their counters, every room naming
        a hotel id already handed out, hotel names and nits unique, every room
        of positive quantity with an accommodation its type admits. Capacity and pair uniqueness are not kept by every
        action, so they are not part of it. */
    ghost predicate Valid()
      reads this
    {
      && (forall k :: k in hotels ==> 0 <= k < nextHotelId)
      && (forall k :: k in rooms ==> 0 <= k < nextRoomId)
      && (forall k :: k in rooms ==> rooms[k].hotelId < nextHotelId)
      && NamesUnique(hotels) && NitsUnique(hotels)
      && RoomsWellFormed(rooms)
    }

    constructor ()
      ensures Valid()
      ensures hotels == map[] && rooms == map[]
    {
      hotels, rooms := map[], map[];
      nextHotelId, nextRoomId := 0, 0;
    }

    // ---------------------------------------------------------------- hotels

    /** HotelController::store */
    method StoreHotel(req: HotelRequest) returns (res: Result<int>)
      requires Valid()
      modifies this`hotels, this`nextHotelId
      ensures Valid()
      ensures match HotelStoreOutcome(old(hotels), req)
        case Err(e) => res == Err(e) && hotels == old(hotels)
        case Ok(h) => res.Ok? && res.value !in old(hotels) && hotels == old(hotels)[res.value := h]
      ensures res.Ok? ==> res.value == old(nextHotelId)
      ensures res.Ok? ==> forall k :: k in rooms ==> rooms[k].hotelId != res.value
      ensures res.Ok? ==> Total(rooms, res.value) == 0
      ensures old(CapacityHolds(hotels, rooms)) ==> CapacityHolds(hotels, rooms)
    {
      var errs := HotelStoreErrors(hotels, req);
      if errs != {} {
        return Err(Invalid(errs));
      }
      var id := nextHotelId;
      StoreHotelKeepsUnique(hotels, req, id);
      SumOverNone(rooms, rooms.Keys, id);
      if CapacityHolds(hotels, rooms) {
        StoreHotelKeepsCapacity(hotels, rooms, req, id);
      }
      hotels := hotels[id := HotelFrom(req)];
      nextHotelId := nextHotelId + 1;
      res := Ok(id);
    }

    /** HotelController::show: the hotel, read without changing anything. */
    method ShowHotel(id: int) returns (res: Result<Hotel>)
      ensures res.Ok? <==> id in hotels
      ensures res.Ok? ==> res.value == hotels[id]
      ensures res.Err? ==> res.error == NotFound
    {
      if id !in hotels {
        return Err(NotFound);
      }
      res := Ok(hotels[id]);
    }

    /** HotelController::update: only the target hotel changes. */
    method UpdateHotel(id: int, req: HotelRequest) returns (res: Result<Hotel>)
      requires Valid()
      modifies this`hotels
      ensures Valid()
      ensures res == HotelUpdateOutcome(old(hotels), id, req)
      ensures hotels == if res.Ok? then old(hotels)[id := res.value] else old(hotels)
      ensures forall k :: k in old(hotels) && k != id ==> k in hotels && hotels[k] == old(hotels)[k]
    {
      if id !in hotels {
        return Err(NotFound);
      }
      var errs := HotelUpdateErrors(hotels, id, req);
      if errs != {} {
        return Err(Invalid(errs));
      }
      var h := HotelFrom(req);
      UpdateHotelKeepsUnique(hotels, id, req);
      hotels := hotels[id := h];
      res := Ok(h);
    }

    /** HotelController::destroy: removes exactly the given hotel. What the
        database does with that hotel's own rooms is not decided here; the
        rooms of every other hotel are unchanged. */
    method DestroyHotel(id: int) returns (res: Result<()>)
      requires Valid()
      modifies this
      ensures Valid()
      ensures res == if id in old(hotels) then Ok(()) else Err(NotFound)
      ensures hotels == old(hotels) - {id}
      ensures nextHotelId == old(nextHotelId) && nextRoomId == old(nextRoomId)
      ensures forall k :: k in old(rooms) && old(rooms)[k].hotelId != id ==> k in rooms && rooms[k] == old(rooms)[k]
      ensures forall k :: k in rooms ==> k in old(rooms) && rooms[k] == old(rooms)[k]
      ensures old(CapacityHolds(hotels, rooms)) ==> CapacityHolds(hotels, rooms)
      ensures old(PairsUnique(rooms)) ==> PairsUnique(rooms)
    {
      if id !in hotels {
        return Err(NotFound);
      }
      hotels := hotels - {id};
      res := Ok(());
    }

    // ----------------------------------------------------------------- rooms

    /** The sum of the quantities of hotel `h`'s rooms, accumulated entry by
        entry over the rooms table. */
    method HotelRoomTotal(h: int) returns (total: int)
      ensures total == Total(rooms, h)
    {
      total := 0;
      var left := rooms.Keys;
      while exists k :: k in left
        invariant left <= rooms.Keys
        invariant total + SumOver(rooms, left, h) == Total(rooms, h)
        decreases left
      {
        var k :| k in left;
        SumOverPick(rooms, left, k, h);
        if rooms[k].hotelId == h {
          total := total + rooms[k].quantity;
        }
        left := left - {k};
      }
    }

    /** RoomController::store */
    method StoreRoom(req: RoomStoreRequest) returns (res: Result<int>)
      requires Valid()
      modifies this`rooms, this`nextRoomId
      ensures Valid()
      ensures match RoomStoreOutcome(old(hotels), old(rooms), req)
        case Err(e) => res == Err(e) && rooms == old(rooms)
        case Ok(r) => res.Ok? && res.value !in old(rooms) && rooms == old(rooms)[res.value := r]
      ensures old(CapacityHolds(hotels, rooms)) ==> CapacityHolds(hotels, rooms)
      ensures old(PairsUnique(rooms)) ==> PairsUnique(rooms)
    {
      ghost var outcome := RoomStoreOutcome(hotels, rooms, req);
      var errs := RoomStoreErrors(hotels, req);
      if errs != {} {
        return Err(Invalid(errs));
      }
      if !ValidAccommodation(req.roomType.value, req.accommodation.value) {
        return Err(InvalidAccommodation);
      }
      var h, t, a, q := req.hotelId.value, ParseType(req.roomType.value).value, req.accommodation.value, req.quantity.value;
      var total := HotelRoomTotal(h);
      if total + q > hotels[h].maxRooms {
        return Err(CapacityExceeded);
      }
      if PairTaken(rooms, h, t, a) {
        return Err(DuplicateRoomType);
      }
      var room := Room(h, t, a, q);
      assert outcome == Ok(room);
      var id := nextRoomId;
      if CapacityHolds(hotels, rooms) {
        StoreRoomKeepsCapacity(hotels, rooms, req, id);
      }
      if PairsUnique(rooms) {
        StoreRoomKeepsPairsUnique(hotels, rooms, req, id);
      }
      id := InsertRoom(room);
      res := Ok(id);
    }

    /** The insert `store` ends with: the room goes in under the next id. */
    method InsertRoom(room: Room) returns (id: int)
      requires Valid()
      requires room.hotelId in hotels
      requires room.quantity >= 1 && room.accommodation in Allowed(room.roomType)
      modifies this`rooms, this`nextRoomId
      ensures Valid()
      ensures id == old(nextRoomId) && id !in old(rooms)
      ensures rooms == old(rooms)[id := room]
    {
      id := nextRoomId;
      rooms := rooms[id := room];
      nextRoomId := nextRoomId + 1;
    }

    /** RoomController::show: the room with its hotel, read without changing
        anything. */
    method ShowRoom(id: int) returns (res: Result<RoomWithHotel>)
      ensures res.Ok? <==> id in rooms
      ensures res.Ok? ==> res.value.room == rooms[id]
      ensures res.Ok? ==> (res.value.hotel == if rooms[id].hotelId in hotels then Some(hotels[rooms[id].hotelId]) else None)
      ensures res.Err? ==> res.error == NotFound
    {
      if id !in rooms {
        return Err(NotFound);
      }
      var room := rooms[id];
      var hotel := if room.hotelId in hotels then Some(hotels[room.hotelId]) else None;
      res := Ok(RoomWithHotel(room, hotel));
    }

    /** RoomController::update: rewrites type, accommodation and quantity of
        one room; its hotel never changes. */
    method UpdateRoom(id: int, req: RoomUpdateRequest) returns (res: Result<Room>)
      requires Valid()
      modifies this`rooms
      ensures Valid()
      ensures res == RoomUpdateOutcome(old(hotels), old(rooms), id, req)
      ensures rooms == if res.Ok? then old(rooms)[id := res.value] else old(rooms)
      ensures old(CapacityHolds(hotels, rooms)) ==> CapacityHolds(hotels, rooms)
    {
      ghost var outcome := RoomUpdateOutcome(hotels, rooms, id, req);
      if id !in rooms {
        return Err(NotFound);
      }
      var errs := ShapeErrors(req.roomType, req.accommodation, req.quantity);
      if errs != {} {
        return Err(Invalid(errs));
      }
      if !ValidAccommodation(req.roomType.value, req.accommodation.value) {
        return Err(InvalidAccommodation);
      }
      var room := rooms[id];
      var h := room.hotelId;
      if h !in hotels {
        // the room's hotel relation is null and reading its rooms fails
        return Err(ServerError);
      }
      var total := HotelRoomTotal(h);
      total := total - room.quantity + req.quantity.value;
      if total > hotels[h].maxRooms {
        return Err(CapacityExceeded);
      }
      var updated := Room(h, ParseType(req.roomType.value).value, req.accommodation.value, req.quantity.value);
      assert outcome == Ok(updated);
      if CapacityHolds(hotels, rooms) {
        UpdateRoomKeepsCapacity(hotels, rooms, id, req);
      }
      ReplaceRoom(id, updated);
      res := Ok(updated);
    }

    /** The write `update` ends with: the room's entry is overwritten and
        keeps its hotel. */
    method ReplaceRoom(id: int, room: Room)
      requires Valid()
      requires id in rooms && room.hotelId == rooms[id].hotelId
      requires room.quantity >= 1 && room.accommodation in Allowed(room.roomType)
      modifies this`rooms
      ensures Valid()
      ensures rooms == old(rooms)[id := room]
    {
      rooms := rooms[id := room];
    }

    /** RoomController::destroy: removes exactly the given room. */
    method DestroyRoom(id: int) returns (res: Result<()>)
      requires Valid()
      modifies this`rooms
      ensures Valid()
      ensures res == if id in old(rooms) then Ok(()) else Err(NotFound)
      ensures rooms == old(rooms) - {id}
      ensures old(CapacityHolds(hotels, rooms)) ==> CapacityHolds(hotels, rooms)
      ensures old(PairsUnique(rooms)) ==> PairsUnique(rooms)
    {
      if id !in rooms {
        return Err(NotFound);
      }
      if CapacityHolds(hotels, rooms) {
        DestroyRoomKeepsCapacity(hotels, rooms, id);
      }
      rooms := rooms - {id};
      res := Ok(());
    }
  }
}
