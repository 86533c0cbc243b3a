/** The Destination record: a stop of an itinerary owning its activities. */
module Destinations {
  import opened Results
  import opened Activities

  datatype Destination = Destination(
    id: Option<string>,
    name: string,
    activities: seq<Activity>,
    travelPackageId: Option<string>)

  /** The one-argument constructor: a named destination with no activities,
      no id and no owning package yet. */
  function NewDestination(name: string): (d: Destination)
    ensures d.name == name
    ensures d.activities == []
    ensures d.id == None && d.travelPackageId == None
  {
    Destination(None, name, [], None)
  }

  /** `addActivities`: the given activities follow the existing ones, in
      order; name, id and owning package are kept. */
  function AddActivities(d: Destination, activityList: seq<Activity>): (r: Destination)
    ensures |r.activities| == |d.activities| + |activityList|
    ensures r.activities[..|d.activities|] == d.activities
    ensures r.activities[|d.activities|..] == activityList
    ensures r.name == d.name && r.id == d.id && r.travelPackageId == d.travelPackageId
  {
    d.(activities := d.activities + activityList)
  }
}
