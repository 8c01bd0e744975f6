# Hotel inventory rules, modelled in Dafny

This is a model of the business rules of a small hotel-inventory API. The API
has two resources. A **hotel** has a name, an address, a city, a tax id
(`nit`) and a ceiling `max_rooms`. A **room** entry has a hotel, a type
(`Standard`, `Junior` or `Suite`), an accommodation (`Sencilla`, `Doble`,
`Triple` or `Cuadruple`) and a quantity of physical rooms. All of the logic
lives in the `store`, `show`, `update` and `destroy` actions of the two
controllers.

The model is split into these modules:

- `Requests` models request fields. A field is an `Option`: `None` when it is
  absent or null, or when an integer field does not hold an integer. It also
  models the `required` rule: present, and not blank after PHP's `trim`.
- `Outcomes` holds the error kinds the actions answer with and their HTTP
  status. The kinds are a failed validator (with the names of the failing
  fields), an invalid accommodation, capacity exceeded, a duplicate pair, not
  found, and a server error.
- `Accommodations` holds the fixed table of accommodations allowed for each
  room type, and the check `validateAccommodation`.
- `Catalog` holds the hotel controller's validation. On create, name and nit
  must be unique across all hotels. On update, they must be unique across
  every hotel except the one being updated. On create `max_rooms` must be an
  integer of at least 1; on update it only has to be an integer.
- `Inventory` holds the room controller's rules. It defines a hotel's room
  total (the sum of its rooms' quantities) and the capacity, pair-uniqueness
  and well-formedness invariants. It gives the outcome of a room create
  (checked in order: fields, accommodation, capacity, duplicate) and of a room
  update (capacity counted without the room's own old quantity, and no
  duplicate check). It also proves which invariants each accepted action
  keeps.
- `Controllers` holds the class `Tables`: the `hotels` and `rooms` tables as
  maps keyed by id, plus the auto-increment counters. It has one method per
  controller action, and each method changes the maps in place.
  `HotelRoomTotal` computes a hotel's room total with a loop over the rooms
  table.
- `Scenarios` holds concrete runs. One is a worked create scenario, one is an
  update across the capacity boundary. Two show invariants that an accepted
  update breaks, as the code is written: room update can create a duplicate
  pair, and hotel update can push a hotel over its capacity.

Three behaviours of the room controller shape the model:

- Create checks capacity before duplicates. So a second `Standard`/`Doble`
  entry of 1 room, in a full hotel of capacity 5, is refused for capacity, not
  as a duplicate. Both answers are 422 (`Scenarios.DemoScenario`).
- The accommodation values are the Spanish strings `Sencilla`, `Doble`,
  `Triple` and `Cuadruple`.
- A room whose `hotel_id` names no hotel is reported as a failure of the
  `hotel_id` field by the request validator.

## Model

| member | source | states |
|---|---|---|
| `Requests.Required` | app/Http/Controllers/RoomController.php:70 | a `required` field is present and not empty; any string whose first character is not trimmable passes |
| `Requests.TrimStart` | app/Http/Controllers/RoomController.php:70 | left trimming keeps a suffix of the string, every dropped character is trimmable, and what is left starts with a non-trimmable character |
| `Requests.TrimEnd` | app/Http/Controllers/RoomController.php:70 | right trimming keeps a prefix of the string, every dropped character is trimmable, and what is left ends with a non-trimmable character |
| `Requests.BlankFront` | app/Http/Controllers/RoomController.php:70 | a non-empty string is blank iff its first character is trimmable and the rest is blank |
| `Requests.BlankBack` | app/Http/Controllers/RoomController.php:70 | a non-empty string is blank iff its last character is trimmable and the rest is blank |
| `Requests.TrimStartEmpty` | app/Http/Controllers/RoomController.php:70 | left trimming leaves nothing iff every character is trimmable |
| `Requests.TrimEndEmpty` | app/Http/Controllers/RoomController.php:70 | right trimming leaves nothing iff every character is trimmable |
| `Requests.TrimEmpty` | app/Http/Controllers/RoomController.php:70 | `trim` leaves the empty string iff every character is trimmable |
| `Requests.RequiredMeansTrimmedNonEmpty` | app/Http/Controllers/RoomController.php:70 | `required` passes iff the field is present and `trim` of its value is not the empty string |
| `Outcomes.Status` | app/Http/Controllers/RoomController.php:81-91 | not found answers 404 (route-model binding of the `Room $room` and `Hotel $hotel` parameters, RoomController.php:124, 168, 220 and HotelController.php:124, 159, 198); a server failure answers 500 (HotelController.php:94, and the uncaught error on an orphaned room at RoomController.php:182); every rule violation (fields, accommodation, capacity, duplicate) answers 422 |
| `Accommodations.ParseType` | app/Http/Controllers/RoomController.php:69 | exactly `Standard`, `Junior` and `Suite` are types; a parsed type's name is the string that was sent |
| `Accommodations.ParseTypeName` | app/Http/Controllers/RoomController.php:171 | every type's own name is accepted by the type rule and parses back to that type |
| `Accommodations.ValidAccommodation` | app/Http/Controllers/RoomController.php:226-237 | a pair passes only when the type is in the table and the accommodation is listed in its row; passing implies one of the four accommodation values |
| `Accommodations.AccommodationTable` | app/Http/Controllers/RoomController.php:228-236 | the check accepts exactly Standard→{Sencilla, Doble}, Junior→{Triple, Cuadruple}, Suite→{Sencilla, Doble, Triple} and rejects every other pair |
| `Catalog.IdentityErrors` | app/Http/Controllers/HotelController.php:81-84 | name and nit pass iff required and held by no hotel in the compared table; address and city pass iff required |
| `Catalog.HotelStoreErrors` | app/Http/Controllers/HotelController.php:80-89 | create accepts name and nit only when no hotel at all holds them, and `max_rooms` only when it is an integer of at least 1 |
| `Catalog.HotelUpdateErrors` | app/Http/Controllers/HotelController.php:161-167 | update accepts name and nit when no OTHER hotel holds them, and `max_rooms` whenever it is an integer, with no lower bound |
| `Catalog.HotelStoreOutcome` | app/Http/Controllers/HotelController.php:78-92 | create succeeds iff no field fails; the new hotel carries exactly the sent fields, has `max_rooms` ≥ 1 and a name and nit no hotel has; otherwise the failing fields are reported |
| `Catalog.HotelUpdateOutcome` | app/Http/Controllers/HotelController.php:159-170 | a missing hotel is not found; an existing hotel with failing fields gets exactly those fields reported; update succeeds iff the hotel exists and no field fails, writing exactly the sent fields, with a name and nit no other hotel has |
| `Catalog.StoreHotelKeepsUnique` | app/Http/Controllers/HotelController.php:81-84 | an accepted create keeps hotel names and nits unique |
| `Catalog.UpdateHotelKeepsUnique` | app/Http/Controllers/HotelController.php:162-165 | an accepted update keeps hotel names and nits unique |
| `Catalog.UpdateUniquenessExcludesSelf` | app/Http/Controllers/HotelController.php:162-165 | on update a hotel may resend its own name and nit, and a name or nit held by another hotel is rejected |
| `Catalog.MaxRoomsLowerBoundOnlyOnStore` | app/Http/Controllers/HotelController.php:161-169 | a `max_rooms` below 1 is rejected by create but accepted and written by update |
| `Inventory.TotalAfterInsert` | app/Http/Controllers/RoomController.php:79 | inserting a room raises its own hotel's total by its quantity and leaves every other hotel's total unchanged |
| `Inventory.TotalAfterReplace` | app/Http/Controllers/RoomController.php:182 | replacing a room swaps its old quantity for the new one in its hotel's total |
| `Inventory.TotalAfterRemove` | app/Http/Controllers/RoomController.php:222 | deleting a room lowers its hotel's total by its quantity |
| `Inventory.ShapeErrors` | app/Http/Controllers/RoomController.php:170-174 | type passes iff it is one of the three names; accommodation passes iff required; quantity passes iff it is an integer ≥ 1 |
| `Inventory.RoomStoreErrors` | app/Http/Controllers/RoomController.php:67-72 | create additionally rejects a `hotel_id` that is missing or names no hotel |
| `Inventory.RoomStoreOutcome` | app/Http/Controllers/RoomController.php:65-96 | fixed order: field failures first, then an accommodation the type does not admit, then a capacity refusal iff total + quantity > `max_rooms` (reaching it exactly is accepted), then a duplicate refusal iff the pair exists; create succeeds iff fields, accommodation, capacity and pair all pass; a success stores exactly the validated fields |
| `Inventory.RoomUpdateOutcome` | app/Http/Controllers/RoomController.php:168-192 | an unknown room is not found; field failures come next, then an accommodation the type does not admit, then a server error if the room's hotel is gone; capacity refuses iff total − old quantity + new quantity > `max_rooms`; update succeeds iff all of these pass; a success keeps the room's hotel, and there is no duplicate check |
| `Inventory.SumOverNone` | app/Http/Controllers/RoomController.php:79 | a hotel that no room among the summed entries names has a total of 0 |
| `Inventory.StoreHotelKeepsCapacity` | app/Http/Controllers/HotelController.php:92 | a hotel created under an id no room names has a room total of 0, so an accepted hotel create keeps every hotel within capacity |
| `Inventory.StoreRoomKeepsCapacity` | app/Http/Controllers/RoomController.php:78-85 | if every hotel was within capacity, it still is after an accepted create |
| `Inventory.StoreRoomKeepsPairsUnique` | app/Http/Controllers/RoomController.php:88-92 | an accepted create never introduces a duplicate (type, accommodation) in a hotel |
| `Inventory.UpdateRoomKeepsCapacity` | app/Http/Controllers/RoomController.php:179-188 | if every hotel was within capacity, it still is after an accepted room update |
| `Inventory.DestroyRoomKeepsCapacity` | app/Http/Controllers/RoomController.php:220-223 | deleting a room never raises any hotel's total, so capacity is kept |
| `Controllers.Tables.StoreHotel` | app/Http/Controllers/HotelController.php:78-96 | a rejection leaves the hotels table unchanged; a success adds exactly one hotel under the next auto-increment id, which no room names, so the new hotel's room total is 0; names and nits stay unique and every hotel stays within capacity |
| `Controllers.Tables.ShowHotel` | app/Http/Controllers/HotelController.php:124-127 | returns the stored hotel or not found, changing nothing |
| `Controllers.Tables.UpdateHotel` | app/Http/Controllers/HotelController.php:159-171 | only the target hotel changes, to exactly the validated fields; every other hotel is unchanged; names and nits stay unique |
| `Controllers.Tables.DestroyHotel` | app/Http/Controllers/HotelController.php:198-202 | removes exactly the given hotel (not found otherwise); no room is added or changed, and rooms of every other hotel stay |
| `Controllers.Tables.HotelRoomTotal` | app/Http/Controllers/RoomController.php:79 | the loop's result is the sum of the quantities of the hotel's rooms |
| `Controllers.Tables.StoreRoom` | app/Http/Controllers/RoomController.php:65-96 | a rejection leaves the rooms table unchanged; a success adds exactly one room under a fresh id; capacity and pair uniqueness are kept |
| `Controllers.Tables.ShowRoom` | app/Http/Controllers/RoomController.php:124-127 | returns the room with its hotel, or not found, changing nothing |
| `Controllers.Tables.UpdateRoom` | app/Http/Controllers/RoomController.php:168-192 | only the target room changes, and its hotel stays the same; capacity is kept |
| `Controllers.Tables.DestroyRoom` | app/Http/Controllers/RoomController.php:220-224 | removes exactly the given room (not found otherwise), leaving all others; capacity and pair uniqueness are kept |
| `Scenarios.DemoHotelCreated` | app/Http/Controllers/HotelController.php:78-92 | worked run: creating hotel Demo with capacity 5 in an empty table succeeds and stores exactly the sent fields |
| `Scenarios.DemoScenario` | app/Http/Controllers/RoomController.php:65-96 | worked run in hotel Demo (capacity 5): Standard/Doble ×5 accepted; a further Standard/Doble ×1 and Standard/Sencilla ×1 refused for capacity; Junior/Doble refused as accommodation; with capacity 10 the repeated pair is refused as a duplicate |
| `Scenarios.UpdateAcrossCapacityBoundary` | app/Http/Controllers/RoomController.php:179-188 | a full hotel's only Standard/Doble entry may stay at 5, go from 5 to 3 and from 3 to 5, but not from 5 to 6 |
| `Scenarios.UpdateRoomCanDuplicate` | app/Http/Controllers/RoomController.php:168-192 | create refuses a pair the hotel has, but update accepts changing a sibling to that pair, which breaks pair uniqueness |
| `Scenarios.UpdateHotelCanBreakCapacity` | app/Http/Controllers/HotelController.php:166-169 | update accepts lowering `max_rooms` below the hotel's room total, and accepts a negative `max_rooms`; both break capacity |

## Left out

- The `index` actions of both controllers are left out. They list every row with its related rows, and they apply no rules.
- Routes, HTTP request and response objects, JSON serialisation and the error message texts are left out. An error is an abstract kind. A validator failure carries only the names of the fields that failed.
- Persistence is reduced to two maps. Ids come from an auto-increment counter, and the `created_at` and `updated_at` timestamps are not modelled.
- The `try`/`catch` that answers 500 when the hotel insert throws is left out. A storage exception has no cause that can be modelled.
- `Controllers.Tables.DestroyHotel`: the contract assumes the delete always succeeds. A delete that the database refuses because rooms still reference the hotel is not modelled. The contract says nothing about the deleted hotel's own rooms beyond "none added or changed": whether they cascade or remain is decided by database migrations that are not part of this model. The controller itself does not touch them.
- `Inventory.RoomUpdateOutcome`: updating a room whose hotel row is gone is modelled as a server error. The room's `hotel` relation is then null, and reading its rooms fails. This case arises only if deleting a hotel leaves its rooms in place.
- Uniqueness, `exists` and the duplicate check compare strings exactly. Case-insensitive or padding-insensitive database collations are not modelled.
- Laravel's input middleware (trimming strings, turning empty strings into null) is not part of this model. Values are taken as sent.
- Field values of the wrong JSON type are not modelled beyond `Option`. For example, a number sent as `accommodation`, or a string holding an integer, is not represented.
- Each action is atomic. The race between concurrent room creations that read the same total is not modelled.
