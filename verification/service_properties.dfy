/** Properties relating several service requests: how a sign-up moves an
    activity's occupancy, what the sign-up decision does not check, what
    `addActivityToDestination` writes before it can fail, and the roster
    bound every request keeps. */
module ServiceProperties {
  import opened Results
  import opened Activities
  import opened Passengers
  import opened Destinations
  import opened Packages
  import opened Documents
  import opened Capacity
  import opened Service

  /** A roster resolved entry by entry from `ks` holds each id as often as
      `ks` does. */
  lemma {:induction false} EntriesAreRefCount(ps: seq<Passenger>, ks: seq<string>, pid: string)
    requires |ps| == |ks|
    requires forall i :: 0 <= i < |ps| ==> ps[i].id == Some(ks[i])
    ensures Entries(ps, pid) == multiset(ks)[pid]
  {
    if |ps| > 0 {
      var n := |ps| - 1;
      EntriesAreRefCount(ps[..n], ks[..n], pid);
      assert ks == ks[..n] + [ks[n]];
    }
  }

  /** What a granted sign-up consists of: the package and the passenger
      exist, the chosen activity has a free place and is affordable, and the
      only write replaces the passenger by the charged one. */
  lemma GrantedSignUp(s: Store, packageId: string, passengerId: string, activityId: string)
    returns (a: Activity, q: Passenger)
    requires SignUpForActivity(s, packageId, passengerId, activityId).outcome == Ok(SignedUp)
    ensures packageId in s.packages && passengerId in s.passengers
    ensures ChosenActivity(LoadPackage(s, packageId), activityId) == Some(a)
    ensures AvailableSpaces(LoadPackage(s, packageId), a) > 0
    ensures CanAfford(LoadPassenger(s, passengerId), a)
    ensures q.id == Some(passengerId)
    ensures q.signedUpActivities == LoadPassenger(s, passengerId).signedUpActivities + [a]
    ensures q.tier == LoadPassenger(s, passengerId).tier
    ensures SignUpForActivity(s, packageId, passengerId, activityId).store
         == s.(passengers := s.passengers[passengerId := q])
  {
    assert packageId in s.packages && passengerId in s.passengers;
    var t := LoadPackage(s, packageId);
    var p := LoadPassenger(s, passengerId);
    assert SignUpForActivity(s, packageId, passengerId, activityId) == SignUpInPackage(s, t, passengerId, p, activityId);
    a := GrantedInPackage(s, t, passengerId, p, activityId);
    q := p.(balance := p.balance - Price(p.tier, a.cost),
            signedUpActivities := p.signedUpActivities + [a]);
  }

  /** A granted sign-up within a loaded package: the chosen activity had a
      free place and an affordable price. */
  lemma GrantedInPackage(s: Store, t: TravelPackage, passengerId: string, p: Passenger, activityId: string)
    returns (a: Activity)
    requires p.id == Some(passengerId)
    requires SignUpInPackage(s, t, passengerId, p, activityId).outcome == Ok(SignedUp)
    ensures ChosenActivity(t, activityId) == Some(a)
    ensures AvailableSpaces(t, a) > 0 && CanAfford(p, a)
  {
    a := ChosenActivity(t, activityId).value;
  }

  /** Replacing a passenger record leaves every package's itinerary alone. */
  lemma ItineraryIgnoresPassengers(s: Store, packageId: string, pid: string, q: Passenger)
    requires packageId in s.packages
    ensures LoadPackage(s.(passengers := s.passengers[pid := q]), packageId).itinerary
         == LoadPackage(s, packageId).itinerary
  {
    var s' := s.(passengers := s.passengers[pid := q]);
    var after := LoadPackage(s', packageId).itinerary;
    var before := LoadPackage(s, packageId).itinerary;
    assert forall i :: 0 <= i < |after| ==> after[i] == before[i];
  }

  /** Giving a stored passenger one more sign-up to `a` takes from `a`'s free
      places in a package as many as the passenger has roster entries there. */
  lemma SpacesAfterPassengerUpdate(s: Store, packageId: string, pid: string, q: Passenger, a: Activity)
    requires packageId in s.packages && pid in s.passengers
    requires q.id == Some(pid)
    requires q.signedUpActivities == LoadPassenger(s, pid).signedUpActivities + [a]
    ensures AvailableSpaces(LoadPackage(s.(passengers := s.passengers[pid := q]), packageId), a)
         == AvailableSpaces(LoadPackage(s, packageId), a) - multiset(s.packages[packageId].passengerRefs)[pid]
  {
    var s' := s.(passengers := s.passengers[pid := q]);
    var refs := s.packages[packageId].passengerRefs;
    LiveDependsOnKeys(s.passengers, s'.passengers, refs);
    var live := Live(s.passengers, refs);
    var ps := LoadPackage(s, packageId).passengers;
    var qs := LoadPackage(s', packageId).passengers;
    assert ps == seq(|live|, i requires 0 <= i < |live| => s.passengers[live[i]].(id := Some(live[i])));
    assert qs == seq(|live|, i requires 0 <= i < |live| => s'.passengers[live[i]].(id := Some(live[i])));
    TallyAfterSignUp(ps, qs, pid, a);
    EntriesAreRefCount(ps, live, pid);
    LiveKeepsCount(s.passengers, refs, pid);
  }

  /** A granted sign-up leaves the package's itinerary as it was and takes
      from the chosen activity's free places exactly as many as the
      passenger has entries on the package's roster: one for a passenger on
      the roster once, k for one listed k times, none for a passenger who is
      not on it. */
  lemma SignUpOccupancy(s: Store, packageId: string, passengerId: string, activityId: string)
    requires SignUpForActivity(s, packageId, passengerId, activityId).outcome == Ok(SignedUp)
    ensures packageId in s.packages && passengerId in s.passengers
    ensures ChosenActivity(LoadPackage(s, packageId), activityId).Some?
    ensures var s' := SignUpForActivity(s, packageId, passengerId, activityId).store;
      var before := LoadPackage(s, packageId);
      var after := LoadPackage(s', packageId);
      var a := ChosenActivity(before, activityId).value;
      && after.itinerary == before.itinerary
      && AvailableSpaces(before, a) > 0
      && AvailableSpaces(after, a)
         == AvailableSpaces(before, a) - multiset(s.packages[packageId].passengerRefs)[passengerId]
  {
    var a, q := GrantedSignUp(s, packageId, passengerId, activityId);
    ItineraryIgnoresPassengers(s, packageId, passengerId, q);
    SpacesAfterPassengerUpdate(s, packageId, passengerId, q, a);
  }

  /** Conversely, a sign-up for an existing package and passenger whose
      chosen activity has a free place and an affordable price is granted. */
  lemma FreeAndAffordableIsGranted(s: Store, packageId: string, passengerId: string, activityId: string)
    requires packageId in s.packages && passengerId in s.passengers
    requires var t := LoadPackage(s, packageId);
      var chosen := ChosenActivity(t, activityId);
      chosen.Some? && AvailableSpaces(t, chosen.value) > 0 && CanAfford(LoadPassenger(s, passengerId), chosen.value)
    ensures SignUpForActivity(s, packageId, passengerId, activityId).outcome == Ok(SignedUp)
  {
  }

  /** Sequentially, a passenger on the roster at most once cannot push the
      chosen activity past its capacity. */
  lemma SignUpKeepsWithinCapacity(s: Store, packageId: string, passengerId: string, activityId: string)
    requires SignUpForActivity(s, packageId, passengerId, activityId).outcome == Ok(SignedUp)
    requires packageId in s.packages && multiset(s.packages[packageId].passengerRefs)[passengerId] <= 1
    ensures ChosenActivity(LoadPackage(s, packageId), activityId).Some?
    ensures var s' := SignUpForActivity(s, packageId, passengerId, activityId).store;
      AvailableSpaces(LoadPackage(s', packageId), ChosenActivity(LoadPackage(s, packageId), activityId).value) >= 0
  {
    SignUpOccupancy(s, packageId, passengerId, activityId);
  }

  /** The sign-up decision never asks whether the passenger is enrolled in
      the package: a passenger who is not on the roster is signed up all the
      same, and the sign-up is invisible to the package's occupancy count. */
  lemma SignUpIgnoresEnrollment(s: Store, packageId: string, passengerId: string, activityId: string)
    requires packageId in s.packages && passengerId in s.passengers
    requires passengerId !in s.packages[packageId].passengerRefs
    requires var t := LoadPackage(s, packageId);
      var chosen := ChosenActivity(t, activityId);
      chosen.Some? && AvailableSpaces(t, chosen.value) > 0 && CanAfford(LoadPassenger(s, passengerId), chosen.value)
    ensures var r := SignUpForActivity(s, packageId, passengerId, activityId);
      var a := ChosenActivity(LoadPackage(s, packageId), activityId).value;
      && r.outcome == Ok(SignedUp)
      && AvailableSpaces(LoadPackage(r.store, packageId), a) == AvailableSpaces(LoadPackage(s, packageId), a)
  {
    assert multiset(s.packages[packageId].passengerRefs)[passengerId] == 0;
    SignUpOccupancy(s, packageId, passengerId, activityId);
  }

  /** Signing up is not idempotent: repeating a granted request while a
      place is still free and the passenger can still pay is granted again,
      and the activity is recorded twice. */
  lemma RepeatedSignUpRecordsTwice(s: Store, packageId: string, passengerId: string, activityId: string)
    requires SignUpForActivity(s, packageId, passengerId, activityId).outcome == Ok(SignedUp)
    requires packageId in s.packages && passengerId in s.passengers
    requires var t := LoadPackage(s, packageId);
      var chosen := ChosenActivity(t, activityId);
      chosen.Some? && AvailableSpaces(t, chosen.value) > multiset(s.packages[packageId].passengerRefs)[passengerId]
    requires var s1 := SignUpForActivity(s, packageId, passengerId, activityId).store;
      var chosen := ChosenActivity(LoadPackage(s, packageId), activityId);
      chosen.Some? && CanAfford(LoadPassenger(s1, passengerId), chosen.value)
    ensures var s1 := SignUpForActivity(s, packageId, passengerId, activityId).store;
      var r2 := SignUpForActivity(s1, packageId, passengerId, activityId);
      var a := ChosenActivity(LoadPackage(s, packageId), activityId).value;
      && r2.outcome == Ok(SignedUp)
      && passengerId in r2.store.passengers
      && LoadPassenger(r2.store, passengerId).signedUpActivities
         == LoadPassenger(s, passengerId).signedUpActivities + [a, a]
  {
    var a, q := GrantedSignUp(s, packageId, passengerId, activityId);
    var s1 := s.(passengers := s.passengers[passengerId := q]);
    ItineraryIgnoresPassengers(s, packageId, passengerId, q);
    SpacesAfterPassengerUpdate(s, packageId, passengerId, q, a);
    assert LoadPassenger(s1, passengerId) == q;
    FreeAndAffordableIsGranted(s1, packageId, passengerId, activityId);
    var a2, q2 := GrantedSignUp(s1, packageId, passengerId, activityId);
    assert q.signedUpActivities + [a] == LoadPassenger(s, passengerId).signedUpActivities + [a, a];
  }

  /** A premium passenger is never refused for price, so a second identical
      request is granted whenever a place is still free. */
  lemma PremiumSignsUpTwice(s: Store, packageId: string, passengerId: string, activityId: string)
    requires SignUpForActivity(s, packageId, passengerId, activityId).outcome == Ok(SignedUp)
    requires packageId in s.packages && passengerId in s.passengers
    requires LoadPassenger(s, passengerId).tier == Premium
    requires var t := LoadPackage(s, packageId);
      var chosen := ChosenActivity(t, activityId);
      chosen.Some? && AvailableSpaces(t, chosen.value) > multiset(s.packages[packageId].passengerRefs)[passengerId]
    ensures var s1 := SignUpForActivity(s, packageId, passengerId, activityId).store;
      SignUpForActivity(s1, packageId, passengerId, activityId).outcome == Ok(SignedUp)
  {
    var s1 := SignUpForActivity(s, packageId, passengerId, activityId).store;
    assert LoadPassenger(s1, passengerId).tier == Premium;
    RepeatedSignUpRecordsTwice(s, packageId, passengerId, activityId);
  }

  /** `addActivityToDestination` saves the activity and the destination
      before it looks the package up: a request naming a missing package
      fails, yet the activity is stored and listed on the destination. */
  lemma AddActivityWritesBeforePackageLookup(s: Store, packageId: string, destinationId: string,
                                             activity: Activity, newId: string)
    requires destinationId in s.destinations
    requires !IsActivityAlreadyPresent(LoadDestination(s, destinationId), activity.name)
    requires LoadDestination(s, destinationId).name != ""
    requires packageId !in s.packages
    ensures var r := AddActivityToDestination(s, packageId, destinationId, activity, newId);
      var key := activity.id.GetOr(newId);
      && r.outcome == Err(NotFound(TravelPackageKind, packageId))
      && key in r.store.activities
      && r.store.activities[key].destinationName == LoadDestination(s, destinationId).name
      && destinationId in r.store.destinations
      && |r.store.destinations[destinationId].activityRefs| > 0
      && r.store.destinations[destinationId].activityRefs[|r.store.destinations[destinationId].activityRefs| - 1] == key
  {
  }

  /** A successful `addActivityToDestination` stamps the activity with the
      destination's name and appends it both to the stored destination and to
      the package's first itinerary entry for that destination. */
  lemma AddActivityAppendsToBoth(s: Store, packageId: string, destinationId: string,
                                 activity: Activity, newId: string)
    requires AddActivityToDestination(s, packageId, destinationId, activity, newId).outcome.Ok?
    ensures destinationId in s.destinations && packageId in s.packages
    ensures var r := AddActivityToDestination(s, packageId, destinationId, activity, newId);
      var d := LoadDestination(s, destinationId);
      var key := activity.id.GetOr(newId);
      var saved := activity.(id := Some(key), destinationName := d.name);
      var t := r.outcome.value;
      && !IsActivityAlreadyPresent(d, activity.name)
      && r.store.activities[key] == saved
      && r.store.destinations[destinationId].activityRefs
         == Live(s.activities, s.destinations[destinationId].activityRefs) + [key]
      && exists i :: 0 <= i < |t.itinerary| && t.itinerary[i].id == Some(destinationId) &&
           |t.itinerary[i].activities| > 0 &&
           t.itinerary[i].activities[|t.itinerary[i].activities| - 1] == saved
  {
    var r := AddActivityToDestination(s, packageId, destinationId, activity, newId);
    var recorded := RecordInDestination(s, destinationId, activity, newId);
    var s1 := recorded.value.0;
    var itinerary := s1.packages[packageId].itinerary;
    var i := FirstIndex(itinerary, (x: DestinationDoc) => x.id == Some(destinationId)).value;
    var t0 := LoadPackage(s1, packageId);
    assert r.outcome.value.itinerary[i].activities == t0.itinerary[i].activities + [recorded.value.1];
  }

  // ---- the roster bound across every request ----------------------------

  /** Every stored package has an empty roster or references no more
      passengers than its capacity.  A package created with a negative
      capacity stays empty, since every admission is then refused. */
  predicate RostersWithinCapacity(s: Store) {
    forall k :: k in s.packages ==>
      |s.packages[k].passengerRefs| == 0 || |s.packages[k].passengerRefs| <= s.packages[k].passengerCapacity
  }

  /** The requests the service accepts. */
  datatype Request =
    | CreateTravelPackageRequest(name: string, passengerCapacity: int)
    | AddDestinationRequest(packageId: string, destination: Destination)
    | AddActivityRequest(packageId: string, destinationId: string, activity: Activity)
    | AddPassengerRequest(packageId: string, passenger: Passenger)
    | SignUpRequest(packageId: string, passengerId: string, activityId: string)
    | CreatePassengerRequest(passengerName: string, passengerNumber: string, tier: Tier, balance: real)
    | CreateDestinationRequest(destinationName: string)
    | CreateActivityRequest(activityName: string, description: string, cost: real, capacity: int,
                            destinations: string)

  /** The store after serving one request; `newId` is the id the store
      hands out if the request saves a record that has none. */
  function Serve(s: Store, req: Request, newId: string): Store {
    match req
    case CreateTravelPackageRequest(name, capacity) => CreateTravelPackage(s, name, capacity, newId).store
    case AddDestinationRequest(packageId, d) => AddDestinationToTravelPackage(s, packageId, d, newId).store
    case AddActivityRequest(packageId, destinationId, a) =>
      AddActivityToDestination(s, packageId, destinationId, a, newId).store
    case AddPassengerRequest(packageId, p) => AddPassengerToTravelPackage(s, packageId, p, newId).store
    case SignUpRequest(packageId, passengerId, activityId) =>
      SignUpForActivity(s, packageId, passengerId, activityId).store
    case CreatePassengerRequest(name, number, tier, balance) =>
      CreatePassenger(s, name, number, tier, balance, newId).0
    case CreateDestinationRequest(name) => CreateDestination(s, name, newId).0
    case CreateActivityRequest(name, description, cost, capacity, destinations) =>
      CreateActivity(s, name, description, cost, capacity, destinations, newId).0
  }

  /** Re-saving a loaded package never lengthens its roster. */
  lemma ResavedRosterNoLonger(s: Store, packageId: string)
    requires packageId in s.packages
    ensures |PassengerRefs(LoadPackage(s, packageId).passengers).value| <= |s.packages[packageId].passengerRefs|
  {
    PassengerRefsOfResolved(s.passengers, s.packages[packageId].passengerRefs);
    LiveShrinks(s.passengers, s.packages[packageId].passengerRefs);
  }

  /** Storing a package document whose roster fits its capacity keeps the
      bound for the whole store. */
  lemma PutKeepsRostersWithinCapacity(s: Store, packageId: string, doc: PackageDoc)
    requires RostersWithinCapacity(s)
    requires |doc.passengerRefs| == 0 || |doc.passengerRefs| <= doc.passengerCapacity
    ensures RostersWithinCapacity(s.(packages := s.packages[packageId := doc]))
  {
  }

  lemma CreateKeepsRostersWithinCapacity(s: Store, name: string, passengerCapacity: int, newId: string)
    requires RostersWithinCapacity(s)
    ensures RostersWithinCapacity(CreateTravelPackage(s, name, passengerCapacity, newId).store)
  {
    if !ExistsByName(s, name) {
      PutKeepsRostersWithinCapacity(s, newId, PackageDoc(name, passengerCapacity, [], []));
    }
  }

  lemma AddDestinationKeepsRostersWithinCapacity(s: Store, packageId: string, d: Destination, newId: string)
    requires RostersWithinCapacity(s)
    ensures RostersWithinCapacity(AddDestinationToTravelPackage(s, packageId, d, newId).store)
  {
    var r := AddDestinationToTravelPackage(s, packageId, d, newId);
    if r.outcome.Ok? {
      ResavedRosterNoLonger(s, packageId);
      var doc := PackageToDoc(r.outcome.value).value;
      assert doc.passengerRefs == PassengerRefs(LoadPackage(s, packageId).passengers).value;
      PutKeepsRostersWithinCapacity(s.(destinations := r.store.destinations), packageId, doc);
    }
  }

  lemma AttachKeepsRostersWithinCapacity(s: Store, packageId: string, destinationId: string,
                                         saved: Activity, newId: string)
    requires RostersWithinCapacity(s) && saved.id.Some?
    ensures RostersWithinCapacity(AttachToPackage(s, packageId, destinationId, saved, newId).store)
  {
    if packageId in s.packages {
      match FirstIndex(s.packages[packageId].itinerary, (x: DestinationDoc) => x.id == Some(destinationId))
      case None =>
      case Some(i) =>
        var t := LoadPackage(s, packageId);
        var attached := AttachToPackage(s, packageId, destinationId, saved, newId).outcome.value;
        assert attached.passengers == t.passengers && attached.passengerCapacity == t.passengerCapacity;
        ResavedRosterNoLonger(s, packageId);
        PutKeepsRostersWithinCapacity(s, packageId, PackageToDoc(attached).value);
    }
  }

  lemma AddActivityKeepsRostersWithinCapacity(s: Store, packageId: string, destinationId: string,
                                              a: Activity, newId: string)
    requires RostersWithinCapacity(s)
    ensures RostersWithinCapacity(AddActivityToDestination(s, packageId, destinationId, a, newId).store)
  {
    if destinationId in s.destinations && !IsActivityAlreadyPresent(LoadDestination(s, destinationId), a.name) {
      var recorded := RecordInDestination(s, destinationId, a, newId);
      if recorded.Ok? {
        AttachKeepsRostersWithinCapacity(recorded.value.0, packageId, destinationId, recorded.value.1, newId);
      }
    }
  }

  lemma AddPassengerKeepsRostersWithinCapacity(s: Store, packageId: string, p: Passenger, newId: string)
    requires RostersWithinCapacity(s)
    ensures RostersWithinCapacity(AddPassengerToTravelPackage(s, packageId, p, newId).store)
  {
    var r := AddPassengerToTravelPackage(s, packageId, p, newId);
    if r.outcome.Ok? {
      var doc := PackageToDoc(r.outcome.value).value;
      PutKeepsRostersWithinCapacity(s.(passengers := r.store.passengers), packageId, doc);
    }
  }

  /** No request leaves a stored roster both non-empty and longer than its
      package's capacity; a package created with a negative capacity stays
      empty. */
  lemma ServeKeepsRostersWithinCapacity(s: Store, req: Request, newId: string)
    requires RostersWithinCapacity(s)
    ensures RostersWithinCapacity(Serve(s, req, newId))
  {
    match req
    case CreateTravelPackageRequest(name, capacity) =>
      CreateKeepsRostersWithinCapacity(s, name, capacity, newId);
    case AddDestinationRequest(packageId, d) =>
      AddDestinationKeepsRostersWithinCapacity(s, packageId, d, newId);
    case AddActivityRequest(packageId, destinationId, a) =>
      AddActivityKeepsRostersWithinCapacity(s, packageId, destinationId, a, newId);
    case AddPassengerRequest(packageId, p) =>
      AddPassengerKeepsRostersWithinCapacity(s, packageId, p, newId);
    case SignUpRequest(packageId, passengerId, activityId) =>
    case CreatePassengerRequest(name, number, tier, balance) =>
    case CreateDestinationRequest(name) =>
    case CreateActivityRequest(name, description, cost, capacity, destinations) =>
  }

  /** A package created with room for one passenger admits the first
      passenger and then refuses a second with another number as full. */
  lemma SecondPassengerFindsPackageFull(s: Store, name: string, p1: Passenger, p2: Passenger)
    requires !ExistsByName(s, name)
    requires p1.id == Some("p1") && p2.id == Some("p2")
    requires p1.passengerNumber != p2.passengerNumber
    ensures var s1 := CreateTravelPackage(s, name, 1, "t").store;
      var r2 := AddPassengerToTravelPackage(s1, "t", p1, "p1");
      && r2.outcome.Ok?
      && AddPassengerToTravelPackage(r2.store, "t", p2, "p2") == Response(r2.store, Err(PackageFull))
  {
    var s1 := CreateTravelPackage(s, name, 1, "t").store;
    assert LoadPackage(s1, "t").passengers == [];
    var r2 := AddPassengerToTravelPackage(s1, "t", p1, "p1");
    var s2 := r2.store;
    assert s2.packages["t"].passengerRefs == ["p1"];
    var roster := LoadPackage(s2, "t").passengers;
    assert roster == [p1];
    assert !HasNumber(roster, p2.passengerNumber);
  }
}
