/** The TravelPackage record: a named offering with a passenger capacity,
    an ordered itinerary of destinations and a roster of passengers. */
module Packages {
  import opened Results
  import opened Passengers
  import opened Destinations

  datatype TravelPackage = TravelPackage(
    id: Option<string>,
    name: string,
    passengerCapacity: int,
    itinerary: seq<Destination>,
    passengers: seq<Passenger>)

  /** The two-argument constructor: empty itinerary, empty roster, no id. */
  function NewTravelPackage(name: string, passengerCapacity: int): (t: TravelPackage)
    ensures t.name == name && t.passengerCapacity == passengerCapacity
    ensures t.itinerary == [] && t.passengers == []
    ensures t.id == None
  {
    TravelPackage(None, name, passengerCapacity, [], [])
  }

  /** `addDestination` puts the destination last in the itinerary and leaves
      the rest of the package alone. */
  function AddDestination(t: TravelPackage, d: Destination): (r: TravelPackage)
    ensures |r.itinerary| == |t.itinerary| + 1
    ensures r.itinerary[..|t.itinerary|] == t.itinerary && r.itinerary[|t.itinerary|] == d
    ensures r.passengers == t.passengers
    ensures r.id == t.id && r.name == t.name && r.passengerCapacity == t.passengerCapacity
  {
    t.(itinerary := t.itinerary + [d])
  }

  /** `addPassenger` puts the passenger last on the roster.  It checks
      neither capacity nor duplicates: appending is possible at any size. */
  function AddPassenger(t: TravelPackage, p: Passenger): (r: TravelPackage)
    ensures |r.passengers| == |t.passengers| + 1
    ensures r.passengers[..|t.passengers|] == t.passengers && r.passengers[|t.passengers|] == p
    ensures r.itinerary == t.itinerary
    ensures r.id == t.id && r.name == t.name && r.passengerCapacity == t.passengerCapacity
  {
    t.(passengers := t.passengers + [p])
  }
}
