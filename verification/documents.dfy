/** The document store behind the repositories: one map per collection,
    keyed by id.  References (a package's roster, a destination's activities)
    are stored as ids and resolved against the store whenever a record is
    loaded; a passenger's sign-ups and a package's itinerary are embedded
    copies. */
module Documents {
  import opened Results
  import opened Activities
  import opened Passengers
  import opened Destinations
  import opened Packages

  /** A destination as stored: its activities are references. */
  datatype DestinationDoc = DestinationDoc(
    id: Option<string>,
    name: string,
    activityRefs: seq<string>,
    travelPackageId: Option<string>)

  /** A package as stored under its id: the itinerary is embedded, the
      roster is a list of passenger references. */
  datatype PackageDoc = PackageDoc(
    name: string,
    passengerCapacity: int,
    itinerary: seq<DestinationDoc>,
    passengerRefs: seq<string>)

  datatype Store = Store(
    packages: map<string, PackageDoc>,
    passengers: map<string, Passenger>,
    destinations: map<string, DestinationDoc>,
    activities: map<string, Activity>)

  /** The references that resolve, in their original order; a dangling
      reference is skipped. */
  function Live<T>(m: map<string, T>, refs: seq<string>): (r: seq<string>)
    ensures forall i :: 0 <= i < |r| ==> r[i] in m
    ensures (forall i :: 0 <= i < |refs| ==> refs[i] in m) ==> r == refs
  {
    if |refs| == 0 then []
    else
      var front := refs[..|refs| - 1];
      var last := refs[|refs| - 1];
      assert refs == front + [last];
      var rest := Live(m, front);
      if last in m then rest + [last] else rest
  }

  /** A reference that resolves is kept as often as it occurs. */
  lemma {:induction false} LiveKeepsCount<T>(m: map<string, T>, refs: seq<string>, k: string)
    requires k in m
    ensures multiset(Live(m, refs))[k] == multiset(refs)[k]
  {
    if |refs| > 0 {
      var front := refs[..|refs| - 1];
      LiveKeepsCount(m, front, k);
      assert refs == front + [refs[|refs| - 1]];
    }
  }

  /** Which references resolve depends on the keys of the collection only. */
  lemma {:induction false} LiveDependsOnKeys<T>(m: map<string, T>, m': map<string, T>, refs: seq<string>)
    requires m.Keys == m'.Keys
    ensures Live(m, refs) == Live(m', refs)
  {
    if |refs| > 0 {
      LiveDependsOnKeys(m, m', refs[..|refs| - 1]);
    }
  }

  /** Resolving activity references: each resolved record is the one stored
      under its reference, and carries that reference as its id. */
  function ResolveActivities(m: map<string, Activity>, refs: seq<string>): (r: seq<Activity>)
    ensures |r| <= |refs|
    ensures forall i :: 0 <= i < |r| ==>
      r[i].id.Some? && r[i].id.value in m && r[i] == m[r[i].id.value].(id := r[i].id)
    ensures (forall i :: 0 <= i < |refs| ==> refs[i] in m) ==>
      |r| == |refs| && forall i :: 0 <= i < |r| ==> r[i].id == Some(refs[i])
  {
    var live := Live(m, refs);
    LiveShrinks(m, refs);
    seq(|live|, i requires 0 <= i < |live| => m[live[i]].(id := Some(live[i])))
  }

  /** Resolving passenger references, as for activities. */
  function ResolvePassengers(m: map<string, Passenger>, refs: seq<string>): (r: seq<Passenger>)
    ensures |r| <= |refs|
    ensures forall i :: 0 <= i < |r| ==>
      r[i].id.Some? && r[i].id.value in m && r[i] == m[r[i].id.value].(id := r[i].id)
    ensures (forall i :: 0 <= i < |refs| ==> refs[i] in m) ==>
      |r| == |refs| && forall i :: 0 <= i < |r| ==> r[i].id == Some(refs[i])
  {
    var live := Live(m, refs);
    LiveShrinks(m, refs);
    seq(|live|, i requires 0 <= i < |live| => m[live[i]].(id := Some(live[i])))
  }

  /** Skipping dangling references never lengthens the list. */
  lemma {:induction false} LiveShrinks<T>(m: map<string, T>, refs: seq<string>)
    ensures |Live(m, refs)| <= |refs|
  {
    if |refs| > 0 {
      LiveShrinks(m, refs[..|refs| - 1]);
    }
  }

  /** The references a list of activities is stored as; the mapper refuses
      (None) when one of them has never been saved. */
  function ActivityRefs(xs: seq<Activity>): (r: Option<seq<string>>)
    ensures r.Some? <==> forall i :: 0 <= i < |xs| ==> xs[i].id.Some?
    ensures r.Some? ==> |r.value| == |xs| && forall i :: 0 <= i < |xs| ==> xs[i].id == Some(r.value[i])
  {
    if forall i :: 0 <= i < |xs| ==> xs[i].id.Some? then
      Some(seq(|xs|, i requires 0 <= i < |xs| => xs[i].id.value))
    else None
  }

  /** The references a roster is stored as, as for activities. */
  function PassengerRefs(ps: seq<Passenger>): (r: Option<seq<string>>)
    ensures r.Some? <==> forall i :: 0 <= i < |ps| ==> ps[i].id.Some?
    ensures r.Some? ==> |r.value| == |ps| && forall i :: 0 <= i < |ps| ==> ps[i].id == Some(r.value[i])
  {
    if forall i :: 0 <= i < |ps| ==> ps[i].id.Some? then
      Some(seq(|ps|, i requires 0 <= i < |ps| => ps[i].id.value))
    else None
  }

  /** Storing the activities that were loaded yields the live references. */
  lemma ActivityRefsOfResolved(m: map<string, Activity>, refs: seq<string>)
    ensures ActivityRefs(ResolveActivities(m, refs)) == Some(Live(m, refs))
  {
    var r := ResolveActivities(m, refs);
    var live := Live(m, refs);
    assert ActivityRefs(r).value == live;
  }

  /** Storing the roster that was loaded yields the live references. */
  lemma PassengerRefsOfResolved(m: map<string, Passenger>, refs: seq<string>)
    ensures PassengerRefs(ResolvePassengers(m, refs)) == Some(Live(m, refs))
  {
    var r := ResolvePassengers(m, refs);
    var live := Live(m, refs);
    assert PassengerRefs(r).value == live;
  }

  // ---- loading ----------------------------------------------------------

  /** `findById` of a passenger: the stored record, carrying its key as id. */
  function LoadPassenger(s: Store, key: string): (p: Passenger)
    requires key in s.passengers
    ensures p.id == Some(key)
    ensures p.(id := s.passengers[key].id) == s.passengers[key]
  {
    s.passengers[key].(id := Some(key))
  }

  /** A destination document with its activity references resolved. */
  function Expand(s: Store, doc: DestinationDoc): (d: Destination)
    ensures d.id == doc.id && d.name == doc.name && d.travelPackageId == doc.travelPackageId
    ensures forall i :: 0 <= i < |d.activities| ==> d.activities[i].id.Some?
  {
    Destination(doc.id, doc.name, ResolveActivities(s.activities, doc.activityRefs), doc.travelPackageId)
  }

  /** `findById` of a destination: the stored document with its key as id
      and its activity references resolved; storing it back gives the
      references that resolve. */
  function LoadDestination(s: Store, key: string): (d: Destination)
    requires key in s.destinations
    ensures d.id == Some(key)
    ensures d.name == s.destinations[key].name && d.travelPackageId == s.destinations[key].travelPackageId
    ensures ActivityRefs(d.activities) == Some(Live(s.activities, s.destinations[key].activityRefs))
  {
    ActivityRefsOfResolved(s.activities, s.destinations[key].activityRefs);
    Expand(s, s.destinations[key]).(id := Some(key))
  }

  /** A stored package with its itinerary and roster resolved. */
  function LoadPackage(s: Store, key: string): (t: TravelPackage)
    requires key in s.packages
    ensures t.id == Some(key)
    ensures t.name == s.packages[key].name
    ensures t.passengerCapacity == s.packages[key].passengerCapacity
    ensures |t.itinerary| == |s.packages[key].itinerary|
    ensures |t.passengers| <= |s.packages[key].passengerRefs|
    ensures Storable(t)
  {
    var doc := s.packages[key];
    TravelPackage(Some(key), doc.name, doc.passengerCapacity,
                  seq(|doc.itinerary|, i requires 0 <= i < |doc.itinerary| => Expand(s, doc.itinerary[i])),
                  ResolvePassengers(s.passengers, doc.passengerRefs))
  }

  // ---- storing ----------------------------------------------------------

  function DestinationToDoc(d: Destination): (r: Option<DestinationDoc>)
    ensures r.Some? <==> ActivityRefs(d.activities).Some?
    ensures r.Some? ==>
      && r.value.id == d.id && r.value.name == d.name
      && r.value.travelPackageId == d.travelPackageId
      && Some(r.value.activityRefs) == ActivityRefs(d.activities)
  {
    match ActivityRefs(d.activities)
    case None => None
    case Some(refs) => Some(DestinationDoc(d.id, d.name, refs, d.travelPackageId))
  }

  function ItineraryDocs(ds: seq<Destination>): (r: Option<seq<DestinationDoc>>)
    ensures r.Some? <==> forall i :: 0 <= i < |ds| ==> DestinationToDoc(ds[i]).Some?
    ensures r.Some? ==> |r.value| == |ds| && forall i :: 0 <= i < |ds| ==> DestinationToDoc(ds[i]) == Some(r.value[i])
  {
    if |ds| == 0 then Some([])
    else
      match (ItineraryDocs(ds[..|ds| - 1]), DestinationToDoc(ds[|ds| - 1]))
      case (Some(front), Some(last)) => Some(front + [last])
      case _ => None
  }

  /** Every record the package refers to has an id, so the mapper can store
      the package. */
  predicate Storable(t: TravelPackage) {
    && (forall i :: 0 <= i < |t.passengers| ==> t.passengers[i].id.Some?)
    && (forall i, j :: 0 <= i < |t.itinerary| && 0 <= j < |t.itinerary[i].activities| ==>
          t.itinerary[i].activities[j].id.Some?)
  }

  /** Appending a saved activity to one itinerary entry keeps a package
      storable. */
  lemma AppendKeepsStorable(t: TravelPackage, i: nat, a: Activity)
    requires Storable(t) && i < |t.itinerary| && a.id.Some?
    ensures Storable(t.(itinerary := t.itinerary[i := t.itinerary[i].(activities := t.itinerary[i].activities + [a])]))
  {
  }

  function PackageToDoc(t: TravelPackage): (r: Option<PackageDoc>)
    ensures r.Some? <==> Storable(t)
    ensures r.Some? ==>
      && r.value.name == t.name && r.value.passengerCapacity == t.passengerCapacity
      && Some(r.value.itinerary) == ItineraryDocs(t.itinerary)
      && Some(r.value.passengerRefs) == PassengerRefs(t.passengers)
  {
    assert ItineraryDocs(t.itinerary).Some? <==>
      forall i, j :: 0 <= i < |t.itinerary| && 0 <= j < |t.itinerary[i].activities| ==>
        t.itinerary[i].activities[j].id.Some?;
    match (ItineraryDocs(t.itinerary), PassengerRefs(t.passengers))
    case (Some(itinerary), Some(refs)) => Some(PackageDoc(t.name, t.passengerCapacity, itinerary, refs))
    case _ => None
  }

  /** `save` of an activity: stored under its own id, or under a newId one
      that is then set on the record. */
  function PutActivity(s: Store, a: Activity, newId: string): (r: (Store, Activity))
    ensures r.1.id == (if a.id.Some? then a.id else Some(newId))
    ensures r.1.(id := a.id) == a
    ensures r.0 == s.(activities := s.activities[r.1.id.value := r.1])
  {
    var key := a.id.GetOr(newId);
    var saved := a.(id := Some(key));
    (s.(activities := s.activities[key := saved]), saved)
  }

  /** `save` of a passenger, as for activities. */
  function PutPassenger(s: Store, p: Passenger, newId: string): (r: (Store, Passenger))
    ensures r.1.id == (if p.id.Some? then p.id else Some(newId))
    ensures r.1.(id := p.id) == p
    ensures r.0 == s.(passengers := s.passengers[r.1.id.value := r.1])
  {
    var key := p.id.GetOr(newId);
    var saved := p.(id := Some(key));
    (s.(passengers := s.passengers[key := saved]), saved)
  }

  /** `save` of a destination; refused when one of its activities has no id. */
  function PutDestination(s: Store, d: Destination, newId: string): (r: Result<(Store, Destination)>)
    ensures r.Ok? <==> ActivityRefs(d.activities).Some?
    ensures r.Err? ==> r.error == UnsavedReference
    ensures r.Ok? ==> var (s', saved) := r.value;
      && saved.id == (if d.id.Some? then d.id else Some(newId))
      && saved.(id := d.id) == d
      && s' == s.(destinations := s'.destinations)
      && s'.destinations.Keys == s.destinations.Keys + {saved.id.value}
      && Some(s'.destinations[saved.id.value]) == DestinationToDoc(saved)
      && forall k :: k in s.destinations && k != saved.id.value ==> s'.destinations[k] == s.destinations[k]
  {
    var key := d.id.GetOr(newId);
    var saved := d.(id := Some(key));
    match DestinationToDoc(saved)
    case None => Err(UnsavedReference)
    case Some(doc) => Ok((s.(destinations := s.destinations[key := doc]), saved))
  }

  /** `save` of a package; refused when it refers to a record with no id. */
  function PutPackage(s: Store, t: TravelPackage, newId: string): (r: Result<(Store, TravelPackage)>)
    ensures r.Ok? <==> Storable(t)
    ensures r.Err? ==> r.error == UnsavedReference
    ensures r.Ok? ==> var (s', saved) := r.value;
      && saved.id == (if t.id.Some? then t.id else Some(newId))
      && saved.(id := t.id) == t
      && s' == s.(packages := s'.packages)
      && s'.packages.Keys == s.packages.Keys + {saved.id.value}
      && Some(s'.packages[saved.id.value]) == PackageToDoc(saved)
      && forall k :: k in s.packages && k != saved.id.value ==> s'.packages[k] == s.packages[k]
  {
    var key := t.id.GetOr(newId);
    var saved := t.(id := Some(key));
    match PackageToDoc(saved)
    case None => Err(UnsavedReference)
    case Some(doc) => Ok((s.(packages := s.packages[key := doc]), saved))
  }

  // ---- consistency and round trips ----------------------------------------

  /** Every reference held by the package document resolves in the store. */
  predicate Resolves(s: Store, doc: PackageDoc) {
    && (forall i :: 0 <= i < |doc.passengerRefs| ==> doc.passengerRefs[i] in s.passengers)
    && (forall i, j :: 0 <= i < |doc.itinerary| && 0 <= j < |doc.itinerary[i].activityRefs| ==>
          doc.itinerary[i].activityRefs[j] in s.activities)
  }

  /** Loading a package whose references resolve and storing it again gives
      back the very document that was stored. */
  lemma PackageRoundTrip(s: Store, key: string)
    requires key in s.packages && Resolves(s, s.packages[key])
    ensures PackageToDoc(LoadPackage(s, key)) == Some(s.packages[key])
  {
    var doc := s.packages[key];
    var t := LoadPackage(s, key);
    PassengerRefsOfResolved(s.passengers, doc.passengerRefs);
    forall i | 0 <= i < |doc.itinerary|
      ensures DestinationToDoc(t.itinerary[i]) == Some(doc.itinerary[i])
    {
      ActivityRefsOfResolved(s.activities, doc.itinerary[i].activityRefs);
    }
    var itin := ItineraryDocs(t.itinerary).value;
    assert itin == doc.itinerary;
  }
}
