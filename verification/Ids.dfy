/** Row identifiers, one type per table, each totally ordered by its number. */
module Ids {
  datatype EventId = EventId(n: nat)
  datatype VenueId = VenueId(n: nat)
}
