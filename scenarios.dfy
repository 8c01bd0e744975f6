/** Concrete runs of the rules: the worked create scenario, an update across
    the capacity boundary, and the two places where an accepted update does
    not keep an invariant that create keeps. */
module Scenarios {
  import opened Requests
  import opened Outcomes
  import opened Accommodations
  import opened Catalog
  import opened Inventory

  const DemoRequest := HotelRequest(Some("Demo"), Some("Street 1"), Some("X"), Some("T1"), Some(5))
  const Demo := Hotel("Demo", "Street 1", "X", "T1", 5)

  function RoomRequest(hotelId: int, t: string, a: string, q: int): RoomStoreRequest
  {
    RoomStoreRequest(Some(hotelId), Some(t), Some(a), Some(q))
  }

  /** Creating hotel Demo, with capacity 5, in an empty table succeeds. */
  lemma DemoHotelCreated()
    ensures HotelStoreOutcome(map[], DemoRequest) == Ok(Demo)
  {
  }

  /** A hotel of capacity 5 with one Standard/Doble entry of 5 rooms: a
      second Standard/Doble of 1 and a Standard/Sencilla of 1 are both
      refused for capacity (capacity is checked before duplicates), and
      Junior/Doble is refused as an accommodation Junior does not admit. */
  lemma DemoScenario()
    ensures RoomStoreOutcome(map[0 := Demo], map[], RoomRequest(0, "Standard", "Doble", 5))
            == Ok(Room(0, Standard, "Doble", 5))
    ensures RoomStoreOutcome(map[0 := Demo], map[0 := Room(0, Standard, "Doble", 5)], RoomRequest(0, "Standard", "Doble", 1))
            == Err(CapacityExceeded)
    ensures RoomStoreOutcome(map[0 := Demo], map[0 := Room(0, Standard, "Doble", 5)], RoomRequest(0, "Standard", "Sencilla", 1))
            == Err(CapacityExceeded)
    ensures RoomStoreOutcome(map[0 := Demo], map[0 := Room(0, Standard, "Doble", 5)], RoomRequest(0, "Junior", "Doble", 1))
            == Err(InvalidAccommodation)
    ensures RoomStoreOutcome(map[0 := Demo.(maxRooms := 10)], map[0 := Room(0, Standard, "Doble", 5)], RoomRequest(0, "Standard", "Doble", 1))
            == Err(DuplicateRoomType)
  {
    var empty: map<int, Room> := map[];
    var first := Room(0, Standard, "Doble", 5);
    TotalAfterInsert(empty, 0, first, 0);
    assert empty[0 := first] == map[0 := first];
    assert PairTaken(map[0 := first], 0, Standard, "Doble");
  }

  /** Update subtracts the room's own old quantity: in a hotel of capacity 5
      whose only entry holds 5 rooms, that entry may stay at 5 or go down to
      3, and from 3 go back up to 5, but not go up to 6. */
  lemma UpdateAcrossCapacityBoundary()
    ensures RoomUpdateOutcome(map[0 := Demo], map[0 := Room(0, Standard, "Doble", 5)], 0,
                              RoomUpdateRequest(Some("Standard"), Some("Doble"), Some(3)))
            == Ok(Room(0, Standard, "Doble", 3))
    ensures RoomUpdateOutcome(map[0 := Demo], map[0 := Room(0, Standard, "Doble", 5)], 0,
                              RoomUpdateRequest(Some("Standard"), Some("Doble"), Some(5)))
            == Ok(Room(0, Standard, "Doble", 5))
    ensures RoomUpdateOutcome(map[0 := Demo], map[0 := Room(0, Standard, "Doble", 3)], 0,
                              RoomUpdateRequest(Some("Standard"), Some("Doble"), Some(5)))
            == Ok(Room(0, Standard, "Doble", 5))
    ensures RoomUpdateOutcome(map[0 := Demo], map[0 := Room(0, Standard, "Doble", 5)], 0,
                              RoomUpdateRequest(Some("Standard"), Some("Doble"), Some(6)))
            == Err(CapacityExceeded)
  {
  }

  /** Room update has no duplicate check: with Standard/Sencilla and
      Standard/Doble in one hotel, updating the second to Standard/Sencilla
      is accepted and leaves two entries with the same pair, although create
      refuses that same pair. */
  lemma UpdateRoomCanDuplicate()
    ensures var hotels := map[0 := Demo.(maxRooms := 10)];
            var rooms := map[0 := Room(0, Standard, "Sencilla", 1), 1 := Room(0, Standard, "Doble", 1)];
            && PairsUnique(rooms)
            && RoomStoreOutcome(hotels, rooms, RoomRequest(0, "Standard", "Sencilla", 1)) == Err(DuplicateRoomType)
            && RoomUpdateOutcome(hotels, rooms, 1, RoomUpdateRequest(Some("Standard"), Some("Sencilla"), Some(1)))
               == Ok(Room(0, Standard, "Sencilla", 1))
            && !PairsUnique(rooms[1 := Room(0, Standard, "Sencilla", 1)])
  {
    var hotels := map[0 := Demo.(maxRooms := 10)];
    var empty: map<int, Room> := map[];
    var single, double := Room(0, Standard, "Sencilla", 1), Room(0, Standard, "Doble", 1);
    var one := empty[0 := single];
    var rooms := one[1 := double];
    TotalAfterInsert(empty, 0, single, 0);
    TotalAfterInsert(one, 1, double, 0);
    assert rooms == map[0 := single, 1 := double];
    assert 0 in rooms && rooms[0] == single;
    assert PairTaken(rooms, 0, Standard, "Sencilla");
    var after := rooms[1 := single];
    assert after[0] == after[1];
  }

  /** Hotel update neither re-checks max_rooms >= 1 nor compares it with the
      rooms the hotel already has: lowering a full hotel's max_rooms from 5 to
      2 is accepted and breaks capacity, and so is setting an empty hotel's
      max_rooms to -1. */
  lemma UpdateHotelCanBreakCapacity()
    ensures var hotels := map[0 := Demo];
            var rooms := map[0 := Room(0, Standard, "Doble", 5)];
            var req := DemoRequest.(maxRooms := Some(2));
            && CapacityHolds(hotels, rooms)
            && HotelUpdateOutcome(hotels, 0, req) == Ok(Demo.(maxRooms := 2))
            && !CapacityHolds(hotels[0 := Demo.(maxRooms := 2)], rooms)
    ensures var hotels := map[0 := Demo];
            var none: map<int, Room> := map[];
            var req := DemoRequest.(maxRooms := Some(-1));
            && CapacityHolds(hotels, none)
            && HotelUpdateOutcome(hotels, 0, req) == Ok(Demo.(maxRooms := -1))
            && !CapacityHolds(hotels[0 := Demo.(maxRooms := -1)], none)
  {
    var empty: map<int, Room> := map[];
    var full := Room(0, Standard, "Doble", 5);
    TotalAfterInsert(empty, 0, full, 0);
    assert empty[0 := full] == map[0 := full];
    var others := map[0 := Demo] - {0};
    assert others == map[];
    assert Total(empty, 0) == 0;
  }
}
