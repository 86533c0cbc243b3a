/** The travel package service: package creation, itinerary and roster
    changes, and the activity sign-up decision, each as a function from the
    store before a request to the store after it and the request's outcome. */
module Service {
  import opened Results
  import opened Activities
  import opened Passengers
  import opened Destinations
  import opened Packages
  import opened Documents
  import opened Capacity

  /** What a request leaves behind: the store, including any writes made
      before an error was raised, and the outcome. */
  datatype Response<+T> = Response(store: Store, outcome: Result<T>)

  /** The statuses a sign-up reports when it does not raise an error. */
  datatype SignUpStatus = SignedUp | CapacityFull

  /** The position of the first element satisfying `p`. */
  function FirstIndex<T>(xs: seq<T>, p: T -> bool): (r: Option<nat>)
    ensures r.Some? ==> r.value < |xs| && p(xs[r.value]) && forall j :: 0 <= j < r.value ==> !p(xs[j])
    ensures r.None? ==> forall j :: 0 <= j < |xs| ==> !p(xs[j])
  {
    if |xs| == 0 then None
    else if p(xs[0]) then Some(0)
    else
      match FirstIndex(xs[1..], p)
      case None => None
      case Some(j) => Some(j + 1)
  }

  /** The itinerary's activities, destination by destination. */
  function ItineraryActivities(ds: seq<Destination>): seq<Activity> {
    if |ds| == 0 then [] else ItineraryActivities(ds[..|ds| - 1]) + ds[|ds| - 1].activities
  }

  /** The activity a sign-up is for: the first one with the requested id in
      itinerary order. */
  function ChosenActivity(t: TravelPackage, activityId: string): (r: Option<Activity>)
    ensures var offered := ItineraryActivities(t.itinerary);
      r.None? <==> forall j :: 0 <= j < |offered| ==> offered[j].id != Some(activityId)
    ensures var offered := ItineraryActivities(t.itinerary);
      r.Some? ==>
        && r.value.id == Some(activityId)
        && exists i :: 0 <= i < |offered| && offered[i] == r.value &&
             forall j :: 0 <= j < i ==> offered[j].id != Some(activityId)
  {
    var offered := ItineraryActivities(t.itinerary);
    match FirstIndex(offered, (a: Activity) => a.id == Some(activityId))
    case None => None
    case Some(i) => Some(offered[i])
  }

  /** `signUpForActivity`.  The package is looked up first, then the
      passenger (in the whole passenger collection, not the roster), then the
      activity.  A free place and an affordable price record the sign-up and
      store the charged passenger; no free place reports CapacityFull; an
      unaffordable price raises the ledger's error.  Only a granted sign-up
      writes. */
  function SignUpForActivity(s: Store, packageId: string, passengerId: string, activityId: string)
    : (r: Response<SignUpStatus>)
    ensures packageId !in s.packages ==>
      r == Response(s, Err(NotFound(TravelPackageKind, packageId)))
    ensures packageId in s.packages && passengerId !in s.passengers ==>
      r == Response(s, Err(NotFound(PassengerKind, passengerId)))
    ensures packageId in s.packages && passengerId in s.passengers ==>
      var t := LoadPackage(s, packageId);
      var p := LoadPassenger(s, passengerId);
      match ChosenActivity(t, activityId)
      case None => r == Response(s, Err(NotFound(ActivityKind, activityId)))
      case Some(a) =>
        && (AvailableSpaces(t, a) <= 0 ==> r == Response(s, Ok(CapacityFull)))
        && (AvailableSpaces(t, a) > 0 && !CanAfford(p, a) ==> r == Response(s, Err(InsufficientBalance)))
        && (AvailableSpaces(t, a) > 0 && CanAfford(p, a) ==>
              && r.outcome == Ok(SignedUp)
              && r.store == s.(passengers := s.passengers[passengerId :=
                   p.(balance := p.balance - Price(p.tier, a.cost),
                      signedUpActivities := p.signedUpActivities + [a])]))
    ensures r.outcome != Ok(SignedUp) ==> r.store == s
  {
    if packageId !in s.packages then Response(s, Err(NotFound(TravelPackageKind, packageId)))
    else if passengerId !in s.passengers then Response(s, Err(NotFound(PassengerKind, passengerId)))
    else SignUpInPackage(s, LoadPackage(s, packageId), passengerId, LoadPassenger(s, passengerId), activityId)
  }

  /** The sign-up once the package `t` and the passenger `p` are loaded. */
  function SignUpInPackage(s: Store, t: TravelPackage, passengerId: string, p: Passenger, activityId: string)
    : (r: Response<SignUpStatus>)
    requires p.id == Some(passengerId)
    ensures match ChosenActivity(t, activityId)
      case None => r == Response(s, Err(NotFound(ActivityKind, activityId)))
      case Some(a) =>
        && (AvailableSpaces(t, a) <= 0 ==> r == Response(s, Ok(CapacityFull)))
        && (AvailableSpaces(t, a) > 0 && !CanAfford(p, a) ==> r == Response(s, Err(InsufficientBalance)))
        && (AvailableSpaces(t, a) > 0 && CanAfford(p, a) ==>
              && r.outcome == Ok(SignedUp)
              && r.store == s.(passengers := s.passengers[passengerId :=
                   p.(balance := p.balance - Price(p.tier, a.cost),
                      signedUpActivities := p.signedUpActivities + [a])]))
    ensures r.outcome != Ok(SignedUp) ==> r.store == s
  {
    match ChosenActivity(t, activityId)
    case None => Response(s, Err(NotFound(ActivityKind, activityId)))
    case Some(activity) => GrantOrRefuse(s, passengerId, p, activity, AvailableSpaces(t, activity))
  }

  /** The decision once the activity is found: with `spaces` free places,
      charge and save the passenger, refuse for price, or report the activity
      full.  Only a grant writes, and it overwrites the passenger's record. */
  function GrantOrRefuse(s: Store, passengerId: string, p: Passenger, a: Activity, spaces: int)
    : (r: Response<SignUpStatus>)
    requires p.id == Some(passengerId)
    ensures spaces <= 0 ==> r == Response(s, Ok(CapacityFull))
    ensures spaces > 0 && !CanAfford(p, a) ==> r == Response(s, Err(InsufficientBalance))
    ensures spaces > 0 && CanAfford(p, a) ==>
      && r.outcome == Ok(SignedUp)
      && r.store == s.(passengers := s.passengers[passengerId :=
           p.(balance := p.balance - Price(p.tier, a.cost), signedUpActivities := p.signedUpActivities + [a])])
  {
    if spaces > 0 then
      match AddSignedUpActivity(p, a)
      case Err(e) => Response(s, Err(e))
      case Ok(charged) => Response(PutPassenger(s, charged, passengerId).0, Ok(SignedUp))
    else Response(s, Ok(CapacityFull))
  }

  /** Whether some roster entry has the passenger number. */
  function HasNumber(ps: seq<Passenger>, passengerNumber: string): (r: bool)
    ensures r <==> exists i :: 0 <= i < |ps| && ps[i].passengerNumber == passengerNumber
  {
    AnyMatch(ps, (p: Passenger) => p.passengerNumber == passengerNumber)
  }

  /** `anyMatch`: whether some element satisfies `p`, scanning from the
      front. */
  function AnyMatch<T>(xs: seq<T>, p: T -> bool): (r: bool)
    ensures r <==> exists i :: 0 <= i < |xs| && p(xs[i])
  {
    if |xs| == 0 then false
    else if p(xs[0]) then true
    else
      var rest := AnyMatch(xs[1..], p);
      assert forall i :: 1 <= i < |xs| ==> xs[i] == xs[1..][i - 1];
      rest
  }

  /** `addPassengerToTravelPackage`: refuses a passenger number already on
      the roster, then admits the passenger only while the roster is shorter
      than the capacity; the passenger is saved and referenced last on the
      roster. */
  function AddPassengerToTravelPackage(s: Store, packageId: string, passenger: Passenger, newId: string)
    : (r: Response<TravelPackage>)
    ensures packageId !in s.packages ==>
      r == Response(s, Err(NotFound(TravelPackageKind, packageId)))
    ensures packageId in s.packages ==>
      var t := LoadPackage(s, packageId);
      && (HasNumber(t.passengers, passenger.passengerNumber) ==>
            r == Response(s, Err(DuplicatePassengerNumber(passenger.passengerNumber))))
      && (!HasNumber(t.passengers, passenger.passengerNumber) && |t.passengers| >= t.passengerCapacity ==>
            r == Response(s, Err(PackageFull)))
      && (r.outcome.Ok? <==>
            !HasNumber(t.passengers, passenger.passengerNumber) && |t.passengers| < t.passengerCapacity)
    ensures r.outcome.Err? ==> r.store == s
    ensures r.outcome.Ok? ==>
      var key := passenger.id.GetOr(newId);
      var saved := passenger.(id := Some(key));
      var t := LoadPackage(s, packageId);
      var added := r.outcome.value;
      && packageId in s.packages
      && added == t.(passengers := t.passengers + [saved])
      && |added.passengers| <= added.passengerCapacity
      && r.store.passengers == s.passengers[key := saved]
      && r.store.packages == s.packages[packageId := PackageToDoc(added).value]
      && r.store.destinations == s.destinations && r.store.activities == s.activities
  {
    if packageId !in s.packages then Response(s, Err(NotFound(TravelPackageKind, packageId)))
    else
      var t := LoadPackage(s, packageId);
      if HasNumber(t.passengers, passenger.passengerNumber) then
        Response(s, Err(DuplicatePassengerNumber(passenger.passengerNumber)))
      else if |t.passengers| < t.passengerCapacity then
        var (s1, saved) := PutPassenger(s, passenger, newId);
        var t1 := AddPassenger(t, saved);
        assert Storable(t1);
        var (s2, t2) := PutPackage(s1, t1, newId).value;
        Response(s2, Ok(t2))
      else Response(s, Err(PackageFull))
  }

  /** `isActivityAlreadyPresent`: whether an activity of the destination
      already has the name. */
  function IsActivityAlreadyPresent(d: Destination, activityName: string): (r: bool)
    ensures r <==> exists i :: 0 <= i < |d.activities| && d.activities[i].name == activityName
  {
    AnyMatch(d.activities, (a: Activity) => a.name == activityName)
  }

  /** `saveActivity`: refuses an empty destination name, otherwise stamps
      the activity with it and saves the activity. */
  function SaveActivity(s: Store, a: Activity, destinationName: string, newId: string)
    : (r: Result<(Store, Activity)>)
    ensures r.Err? <==> destinationName == ""
    ensures r.Err? ==> r.error == EmptyDestinationName
    ensures r.Ok? ==>
      var (s', saved) := r.value;
      && saved == a.(id := Some(a.id.GetOr(newId)), destinationName := destinationName)
      && s' == s.(activities := s.activities[saved.id.value := saved])
  {
    if destinationName == "" then Err(EmptyDestinationName)
    else Ok(PutActivity(s, a.(destinationName := destinationName), newId))
  }

  /** `saveDestination`: refuses a destination without a name, otherwise
      saves it. */
  function SaveDestination(s: Store, d: Destination, newId: string): (r: Result<(Store, Destination)>)
    ensures d.name == "" ==> r == Err(EmptyDestinationName)
    ensures d.name != "" ==> r == PutDestination(s, d, newId)
  {
    if d.name == "" then Err(EmptyDestinationName) else PutDestination(s, d, newId)
  }

  /** The first two writes of `addActivityToDestination`: the activity is
      stamped with the destination's name and saved (`saveActivity`), then the
      stored destination is saved with the activity appended
      (`saveDestination`). */
  function RecordInDestination(s: Store, destinationId: string, activity: Activity, newId: string)
    : (r: Result<(Store, Activity)>)
    requires destinationId in s.destinations
    ensures var d := LoadDestination(s, destinationId);
      r.Err? <==> d.name == ""
    ensures r.Err? ==> r.error == EmptyDestinationName
    ensures r.Ok? ==>
      var d := LoadDestination(s, destinationId);
      var key := activity.id.GetOr(newId);
      var saved := activity.(id := Some(key), destinationName := d.name);
      && r.value.1 == saved
      && r.value.0 == s.(activities := s.activities[key := saved],
                         destinations := s.destinations[destinationId :=
                           DestinationDoc(Some(destinationId), d.name,
                             Live(s.activities, s.destinations[destinationId].activityRefs) + [key],
                             d.travelPackageId)])
  {
    var d := LoadDestination(s, destinationId);
    match SaveActivity(s, activity, d.name, newId)
    case Err(e) => Err(e)
    case Ok((s1, saved)) =>
      var d1 := d.(activities := d.activities + [saved]);
      ActivityRefsOfResolved(s.activities, s.destinations[destinationId].activityRefs);
      assert ActivityRefs(d1.activities).value
          == Live(s.activities, s.destinations[destinationId].activityRefs) + [saved.id.value];
      var (s2, _) := SaveDestination(s1, d1, newId).value;
      Ok((s2, saved))
  }

  /** The last part of `addActivityToDestination`: the package is looked up,
      and the saved activity is appended to its first itinerary entry with the
      destination id. */
  function AttachToPackage(s: Store, packageId: string, destinationId: string, saved: Activity, newId: string)
    : (r: Response<TravelPackage>)
    requires saved.id.Some?
    ensures packageId !in s.packages ==>
      r == Response(s, Err(NotFound(TravelPackageKind, packageId)))
    ensures packageId in s.packages ==>
      var itinerary := s.packages[packageId].itinerary;
      match FirstIndex(itinerary, (x: DestinationDoc) => x.id == Some(destinationId))
      case None => r == Response(s, Err(NotFound(DestinationInPackageKind, destinationId)))
      case Some(i) =>
        var t := LoadPackage(s, packageId);
        && r.outcome.Ok?
        && r.outcome.value == t.(itinerary := t.itinerary[i :=
             t.itinerary[i].(activities := t.itinerary[i].activities + [saved])])
        && r.store == s.(packages := s.packages[packageId := PackageToDoc(r.outcome.value).value])
  {
    if packageId !in s.packages then Response(s, Err(NotFound(TravelPackageKind, packageId)))
    else
      var t := LoadPackage(s, packageId);
      match FirstIndex(t.itinerary, (x: Destination) => x.id == Some(destinationId))
      case None =>
        SameFirstDestination(s, packageId, destinationId);
        Response(s, Err(NotFound(DestinationInPackageKind, destinationId)))
      case Some(i) =>
        SameFirstDestination(s, packageId, destinationId);
        var inPackage := t.itinerary[i];
        var t1 := t.(itinerary := t.itinerary[i := inPackage.(activities := inPackage.activities + [saved])]);
        AppendKeepsStorable(t, i, saved);
        var (s2, t2) := PutPackage(s, t1, newId).value;
        Response(s2, Ok(t2))
  }

  /** Loading keeps the itinerary's destination ids, so the first matching
      entry is the same before and after loading. */
  lemma SameFirstDestination(s: Store, packageId: string, destinationId: string)
    requires packageId in s.packages
    ensures FirstIndex(LoadPackage(s, packageId).itinerary, (x: Destination) => x.id == Some(destinationId))
         == FirstIndex(s.packages[packageId].itinerary, (x: DestinationDoc) => x.id == Some(destinationId))
  {
    var docs := s.packages[packageId].itinerary;
    var ds := LoadPackage(s, packageId).itinerary;
    var p := (x: Destination) => x.id == Some(destinationId);
    var q := (x: DestinationDoc) => x.id == Some(destinationId);
    assert forall j :: 0 <= j < |ds| ==> ds[j].id == docs[j].id;
    FirstIndexAgrees(ds, docs, p, q);
  }

  /** Two searches that match at the same positions find the same first
      position. */
  lemma FirstIndexAgrees<A, B>(xs: seq<A>, ys: seq<B>, p: A -> bool, q: B -> bool)
    requires |xs| == |ys|
    requires forall j :: 0 <= j < |xs| ==> p(xs[j]) == q(ys[j])
    ensures FirstIndex(xs, p) == FirstIndex(ys, q)
  {
  }

  /** `addActivityToDestination`.  The stored destination is looked up and
      checked for an activity of the same name; the activity and the stored
      destination are saved; only then is the package looked up and the
      activity appended to the package's first itinerary entry with that
      destination id, so the first two writes survive a later "not found". */
  function AddActivityToDestination(s: Store, packageId: string, destinationId: string,
                                    activity: Activity, newId: string)
    : (r: Response<TravelPackage>)
    ensures destinationId !in s.destinations ==>
      r == Response(s, Err(NotFound(DestinationKind, destinationId)))
    ensures destinationId in s.destinations && IsActivityAlreadyPresent(LoadDestination(s, destinationId), activity.name) ==>
      r == Response(s, Err(DuplicateActivityName(activity.name)))
    ensures destinationId in s.destinations && !IsActivityAlreadyPresent(LoadDestination(s, destinationId), activity.name) ==>
      var recorded := RecordInDestination(s, destinationId, activity, newId);
      && (recorded.Err? ==> r == Response(s, Err(EmptyDestinationName)))
      && (recorded.Ok? ==> r == AttachToPackage(recorded.value.0, packageId, destinationId, recorded.value.1, newId))
  {
    if destinationId !in s.destinations then Response(s, Err(NotFound(DestinationKind, destinationId)))
    else
      var d := LoadDestination(s, destinationId);
      if IsActivityAlreadyPresent(d, activity.name) then
        Response(s, Err(DuplicateActivityName(activity.name)))
      else
        match RecordInDestination(s, destinationId, activity, newId)
        case Err(e) => Response(s, Err(e))
        case Ok((s1, saved)) => AttachToPackage(s1, packageId, destinationId, saved, newId)
  }

  /** `addDestinationToTravelPackage`: the destination is tied to the
      package, saved, and placed last in the package's itinerary. */
  function AddDestinationToTravelPackage(s: Store, packageId: string, destination: Destination, newId: string)
    : (r: Response<TravelPackage>)
    ensures packageId !in s.packages ==>
      r == Response(s, Err(NotFound(TravelPackageKind, packageId)))
    ensures packageId in s.packages ==>
      (r.outcome.Ok? <==> ActivityRefs(destination.activities).Some?)
    ensures packageId in s.packages && r.outcome.Err? ==> r.outcome.error == UnsavedReference
    ensures r.outcome.Err? ==> r.store == s
    ensures r.outcome.Ok? ==>
      var key := destination.id.GetOr(newId);
      var saved := destination.(id := Some(key), travelPackageId := Some(packageId));
      var t := LoadPackage(s, packageId);
      && packageId in s.packages
      && r.outcome.value == t.(itinerary := t.itinerary + [saved])
      && r.store.destinations == s.destinations[key := DestinationToDoc(saved).value]
      && r.store.packages == s.packages[packageId := PackageToDoc(r.outcome.value).value]
      && r.store.passengers == s.passengers && r.store.activities == s.activities
  {
    if packageId !in s.packages then Response(s, Err(NotFound(TravelPackageKind, packageId)))
    else
      var t := LoadPackage(s, packageId);
      var tied := destination.(travelPackageId := t.id);
      match PutDestination(s, tied, newId)
      case Err(e) => Response(s, Err(e))
      case Ok((s1, saved)) =>
        var t1 := AddDestination(t, saved);
        assert Storable(t1);
        var (s2, t2) := PutPackage(s1, t1, newId).value;
        Response(s2, Ok(t2))
  }

  /** Whether a stored package already has the name. */
  predicate ExistsByName(s: Store, name: string)
  {
    exists k :: k in s.packages && s.packages[k].name == name
  }

  /** `createTravelPackage`: refuses a name some package already has and
      otherwise stores a new empty package with the name and capacity. */
  function CreateTravelPackage(s: Store, name: string, passengerCapacity: int, newId: string)
    : (r: Response<TravelPackage>)
    ensures ExistsByName(s, name) ==> r == Response(s, Err(DuplicatePackageName(name)))
    ensures !ExistsByName(s, name) ==>
      && r.outcome.Ok?
      && r.outcome.value.name == name
      && r.outcome.value.passengerCapacity == passengerCapacity
      && r.outcome.value.id == Some(newId)
      && r.outcome.value.itinerary == [] && r.outcome.value.passengers == []
      && r.store == s.(packages := s.packages[newId := PackageDoc(name, passengerCapacity, [], [])])
      && ExistsByName(r.store, name)
  {
    if ExistsByName(s, name) then Response(s, Err(DuplicatePackageName(name)))
    else
      var t := NewTravelPackage(name, passengerCapacity);
      assert ItineraryDocs(t.itinerary) == Some([]);
      assert PassengerRefs(t.passengers) == Some([]);
      var (s1, saved) := PutPackage(s, t, newId).value;
      assert s1.packages[newId].name == name;
      Response(s1, Ok(saved))
  }

  /** `createPassenger`: a new passenger saved with the given details. */
  function CreatePassenger(s: Store, name: string, passengerNumber: string, tier: Tier, balance: real,
                           newId: string): (r: (Store, Passenger))
    ensures r.1 == Passenger(Some(newId), name, passengerNumber, tier, balance, [])
    ensures r.0 == s.(passengers := s.passengers[newId := r.1])
  {
    PutPassenger(s, NewPassenger(name, passengerNumber, tier, balance), newId)
  }

  /** `createDestination`: a new empty destination saved under the name. */
  function CreateDestination(s: Store, name: string, newId: string): (r: (Store, Destination))
    ensures r.1 == Destination(Some(newId), name, [], None)
    ensures r.0 == s.(destinations := s.destinations[newId := DestinationDoc(Some(newId), name, [], None)])
  {
    var d := NewDestination(name);
    assert ActivityRefs(d.activities) == Some([]);
    PutDestination(s, d, newId).value
  }

  /** `createActivity`: a new activity saved with the given details. */
  function CreateActivity(s: Store, name: string, description: string, cost: real, capacity: int,
                          destinations: string, newId: string): (r: (Store, Activity))
    ensures r.1 == Activity(Some(newId), name, description, cost, capacity, destinations)
    ensures r.0 == s.(activities := s.activities[newId := r.1])
  {
    PutActivity(s, NewActivity(name, description, cost, capacity, destinations), newId)
  }
}
