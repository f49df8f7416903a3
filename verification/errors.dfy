/** Why an airport operation is rejected. The source raises one exception type with a
    message; each variant here stands for one place that raises it. */
module Errors {

  datatype AirportError =
    | BadRunwayCount        // the engine is constructed with a negative number of runways
    | BadRunwayNumber       // a runway is constructed with a number below 1
    | DuplicateFlight       // the flight number is already registered
    | UnknownFlight         // the flight number is not registered
    | NoRunwayAssigned      // the plane's runway number is asked for, but it holds none
    | NullRunway            // a plane is offered a runway that does not exist
    | RunwayTaken           // a plane is offered a runway that is already booked
    | NoRunwayToVacate      // a plane that holds no runway is asked to vacate it
    | StatusIsTerminal      // a departing plane's status is advanced
    | WrongRunway           // a landing names a runway other than the plane's
    | NeverArrived          // a landing is reported for a plane that never announced arrival
    | AlreadyLanded         // a landing is reported twice
    | NotLanded             // boarding or take-off before landing
    | AlreadyDeparting      // boarding is announced twice
    | AlreadyInAirport      // a runway is requested by a plane that has already landed
    | AlreadyHasRunway      // a runway is requested by a plane that holds one
    | AlreadyArrived        // a plane asks to circle a second time
    | BoardingNotAnnounced  // take-off before boarding was announced
}
