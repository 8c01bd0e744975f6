/** What a controller action answers: a value, or one of the error kinds the
    two controllers raise. */
module Outcomes {

  datatype Error =
    | Invalid(fields: set<string>)  // the request validator rejected these fields
    | InvalidAccommodation          // the accommodation is not listed for the room type
    | CapacityExceeded              // the hotel's room total would pass max_rooms
    | DuplicateRoomType             // the hotel already has this (type, accommodation)
    | NotFound                      // the id in the path names no record
    | ServerError                   // an uncaught failure inside the action

  datatype Result<T> = Ok(value: T) | Err(error: Error)

  /** The HTTP status each error kind is answered with. */
  function Status(e: Error): (code: int)
    ensures code == 404 <==> e.NotFound?
    ensures code == 500 <==> e.ServerError?
    ensures code == 422 <==> !e.NotFound? && !e.ServerError?
  {
    match e
    case NotFound => 404
    case ServerError => 500
    case _ => 422
  }
}
