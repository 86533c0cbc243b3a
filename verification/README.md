# Travel package sign-up engine in Dafny

This project models the service layer of a travel-package booking system.
Travel packages have a passenger capacity, an itinerary of destinations and a roster of passengers.
Each destination offers activities, and each activity has a cost and a capacity.
Passengers belong to one of three tiers and carry a balance.

The model covers:

- the tier-priced charge that records a sign-up (`Passenger.addSignedUpActivity`);
- the count of an activity's free places (`calculateAvailableSpaces`);
- the sign-up decision (`signUpForActivity`);
- the mutations of packages and itineraries: adding a passenger, adding a destination, adding an activity to a destination, creating a package, and the validation in `saveActivity` and `saveDestination`;
- the constructors and mutators of the four model classes, and `Activity`'s `equals` and `hashCode`.

Everything is pure.
The MongoDB collections are one finite map per collection, keyed by id (`Documents.Store`).
Two kinds of list are stored differently:

- **Referenced lists** hold ids. These are a package's roster and a destination's activities, which the source maps with `@DBRef`. Every load resolves them against the store, so the roster a package sees always shows each passenger's latest sign-ups.
- **Embedded lists** hold copies. These are a passenger's sign-ups and a package's itinerary. Each itinerary entry is an embedded destination, but that destination's own activities are still stored as references.

The five package requests (sign-up; adding a passenger, a destination or an activity; creating a package) return a `Response`, which holds the store after the request together with an `Ok` or an `Err` outcome.
Only `addActivityToDestination` can fail after a write, and its earlier writes stay visible; the other requests write nothing when they fail.
The creations that cannot fail return the new store and record directly.
`saveActivity` and `saveDestination` return a `Result` that is refused before any write.
`newId` is the id the store would assign to a record saved without one.

Modules, in dependency order:

- `Results`: optional values, the error variants, and results.
- `Activities`, `Passengers`, `Destinations`, `Packages`: the model classes.
- `Documents`: the store, reference resolution, loading and saving.
- `Capacity`: occupancy and free places.
- `Service`: the service operations.
- `ServiceProperties`: properties that relate several requests.

## Model

| member | source | states |
|---|---|---|
| Activities.NewActivity | travelProject/src/main/java/com/travel/travelProject/model/Activity.java:28-34 | the five-argument constructor stores each argument, the last as the destination name, and leaves the id unset |
| Activities.Equals | travelProject/src/main/java/com/travel/travelProject/model/Activity.java:37-47 | `equals` compares cost, capacity, id, name, description and destination name; it holds exactly when the two records are identical |
| Activities.EqualsIsEquivalence | travelProject/src/main/java/com/travel/travelProject/model/Activity.java:38-46 | `equals` is reflexive, symmetric and transitive |
| Activities.SameIdIsNotEnough | travelProject/src/main/java/com/travel/travelProject/model/Activity.java:41-46 | two records with the same id that differ in cost, description or capacity are not equal, so occupancy counts them apart |
| Activities.SetDestinations | travelProject/src/main/java/com/travel/travelProject/model/Activity.java:54-56 | `setDestinations` replaces the destination name and keeps every other field |
| Activities.Int32 | travelProject/src/main/java/com/travel/travelProject/model/Activity.java:50-52 | reduction to Java `int`: the result is in the 32-bit range and congruent to the input modulo 2^32 |
| Activities.StringHash | travelProject/src/main/java/com/travel/travelProject/model/Activity.java:50-52 | a string's hash stays in the 32-bit range |
| Activities.CombineHashes | travelProject/src/main/java/com/travel/travelProject/model/Activity.java:50-52 | combining field hashes (`Objects.hash`) gives a 32-bit value |
| Activities.HashCode | travelProject/src/main/java/com/travel/travelProject/model/Activity.java:50-52 | the hash of the six compared fields is a 32-bit value |
| Activities.EqualActivitiesHashAlike | travelProject/src/main/java/com/travel/travelProject/model/Activity.java:37-52 | activities that are `equals` have the same `hashCode` |
| Passengers.NewPassenger | travelProject/src/main/java/com/travel/travelProject/model/Passenger.java:25-31 | the four-argument constructor sets name, number, tier and balance, with an empty sign-up list and no id |
| Passengers.Price | travelProject/src/main/java/com/travel/travelProject/model/Passenger.java:38-56 | what a tier pays: the full cost for standard, the cost less a tenth of it for gold, zero for premium; never negative and never above a non-negative cost |
| Passengers.AddSignedUpActivity | travelProject/src/main/java/com/travel/travelProject/model/Passenger.java:34-66 | with its guard `CanAfford`: standard and gold passengers succeed exactly when the balance covers the full price or nine tenths of it; premium passengers always succeed; a failure is InsufficientBalance; a success lowers the balance by the tier's price, appends the activity and changes nothing else; standard and gold balances never go negative |
| Passengers.SignUpAppendsOne | travelProject/src/main/java/com/travel/travelProject/model/Passenger.java:65 | a granted sign-up makes the list one longer, puts the activity last and keeps the earlier entries |
| Passengers.ChargeIsPrice | travelProject/src/main/java/com/travel/travelProject/model/Passenger.java:38-60 | the balance after a granted sign-up plus the tier's price is the balance before |
| Passengers.StandardShortOfFunds | travelProject/src/main/java/com/travel/travelProject/model/Passenger.java:38-43 | a standard passenger with 50 is refused an activity costing 100 |
| Passengers.GoldDiscountCovers | travelProject/src/main/java/com/travel/travelProject/model/Passenger.java:46-56 | a gold passenger with 95 is charged 90 for an activity costing 100 and keeps 5 |
| Destinations.NewDestination | travelProject/src/main/java/com/travel/travelProject/model/Destination.java:28-31 | the one-argument constructor sets the name, with no activities, no id and no owning package |
| Destinations.AddActivities | travelProject/src/main/java/com/travel/travelProject/model/Destination.java:33-35 | `addActivities` keeps the old activities in front and the given ones behind them, in order; the length grows by the size of the given list; name, id and package stay the same |
| Packages.NewTravelPackage | travelProject/src/main/java/com/travel/travelProject/model/TravelPackage.java:27-32 | the two-argument constructor sets name and capacity, with an empty itinerary, an empty roster and no id |
| Packages.AddDestination | travelProject/src/main/java/com/travel/travelProject/model/TravelPackage.java:35-37 | `addDestination` appends the destination last in the itinerary; the roster, name, id and capacity stay the same |
| Packages.AddPassenger | travelProject/src/main/java/com/travel/travelProject/model/TravelPackage.java:41-43 | `addPassenger` appends the passenger last on the roster at any size, with no capacity or duplicate check; the itinerary, name, id and capacity stay the same |
| Documents.Live | travelProject/src/main/java/com/travel/travelProject/model/TravelPackage.java:23-24 | resolving a referenced list keeps only references present in the collection; when every reference resolves, it keeps them all |
| Documents.LiveKeepsCount | travelProject/src/main/java/com/travel/travelProject/model/TravelPackage.java:23-24 | a reference that resolves is kept as often as it occurs in the stored list |
| Documents.LiveDependsOnKeys | travelProject/src/main/java/com/travel/travelProject/model/TravelPackage.java:23-24 | which references resolve depends only on which keys the collection holds |
| Documents.LiveShrinks | travelProject/src/main/java/com/travel/travelProject/model/TravelPackage.java:23-24 | resolving never lengthens a referenced list |
| Documents.ResolveActivities | travelProject/src/main/java/com/travel/travelProject/model/Destination.java:23-24 | a destination's loaded activities are the stored records under their references, each carrying its reference as id |
| Documents.ResolvePassengers | travelProject/src/main/java/com/travel/travelProject/model/TravelPackage.java:23-24 | a package's loaded roster is the stored passengers under its references, each carrying its reference as id |
| Documents.ActivityRefs | travelProject/src/main/java/com/travel/travelProject/model/Destination.java:23-24 | a list of activities can be stored as references exactly when every activity has an id, and the references are those ids in order |
| Documents.PassengerRefs | travelProject/src/main/java/com/travel/travelProject/model/TravelPackage.java:23-24 | a roster can be stored as references exactly when every passenger has an id, and the references are those ids in order |
| Documents.ActivityRefsOfResolved | travelProject/src/main/java/com/travel/travelProject/model/Destination.java:23-24 | storing the activities just loaded gives back the references that resolved |
| Documents.PassengerRefsOfResolved | travelProject/src/main/java/com/travel/travelProject/model/TravelPackage.java:23-24 | storing the roster just loaded gives back the references that resolved |
| Documents.Expand | travelProject/src/main/java/com/travel/travelProject/model/Destination.java:19-25 | loading a destination keeps its id, name and package, and every loaded activity has an id |
| Documents.LoadPassenger | travelProject/src/main/java/com/travel/travelProject/service/TravelPackageService.java:159-160 | `findById` of a passenger gives the stored record with its key as id and nothing else changed |
| Documents.LoadDestination | travelProject/src/main/java/com/travel/travelProject/service/TravelPackageService.java:91-92 | `findById` of a destination gives its key as id, its stored name and package, and activities that store back as exactly the references that resolve |
| Documents.LoadPackage | travelProject/src/main/java/com/travel/travelProject/model/TravelPackage.java:17-24 | a loaded package carries its key as id; its name, capacity and itinerary length are as stored; its roster is no longer than the stored references; it can be stored again |
| Documents.DestinationToDoc | travelProject/src/main/java/com/travel/travelProject/model/Destination.java:19-25 | a destination can be stored exactly when all its activities have ids; id, name and package are stored as they are |
| Documents.ItineraryDocs | travelProject/src/main/java/com/travel/travelProject/model/TravelPackage.java:22 | an itinerary can be stored exactly when each of its destinations can, entry by entry and in order |
| Documents.PackageToDoc | travelProject/src/main/java/com/travel/travelProject/model/TravelPackage.java:17-24 | a package can be stored exactly when every passenger and every itinerary activity has an id; it keeps name, capacity, itinerary and roster references |
| Documents.AppendKeepsStorable | travelProject/src/main/java/com/travel/travelProject/service/TravelPackageService.java:123-125 | appending a saved activity to one itinerary entry leaves the package storable |
| Documents.PutActivity | travelProject/src/main/java/com/travel/travelProject/service/TravelPackageService.java:208 | saving an activity stores it under its own id, or under the new id, which it then carries |
| Documents.PutPassenger | travelProject/src/main/java/com/travel/travelProject/service/TravelPackageService.java:145 | saving a passenger stores it under its own id, or under the new id, which it then carries |
| Documents.PutDestination | travelProject/src/main/java/com/travel/travelProject/service/TravelPackageService.java:83 | saving a destination succeeds exactly when its activities all have ids; it then replaces only its own entry |
| Documents.PutPackage | travelProject/src/main/java/com/travel/travelProject/service/TravelPackageService.java:84 | saving a package succeeds exactly when it is storable; it then replaces only its own entry |
| Documents.PackageRoundTrip | travelProject/src/main/java/com/travel/travelProject/model/TravelPackage.java:17-24 | loading a package whose references all resolve and storing it again gives back the same document |
| Capacity.CountMatching | travelProject/src/main/java/com/travel/travelProject/service/TravelPackageService.java:69-70 | counting the entries that are `equals` to an activity gives its multiplicity in the list |
| Capacity.CountIsTally | travelProject/src/main/java/com/travel/travelProject/service/TravelPackageService.java:66-70 | counting over the flattened sign-ups equals the sum of each roster passenger's own count |
| Capacity.AvailableSpaces | travelProject/src/main/java/com/travel/travelProject/service/TravelPackageService.java:65-73 | free places are the capacity minus the roster's sign-ups equal to the activity; never more than the capacity; possibly negative |
| Capacity.TallyAfterSignUp | travelProject/src/main/java/com/travel/travelProject/service/TravelPackageService.java:66-72 | when every roster entry for one passenger gains a sign-up, occupancy grows by the number of such entries |
| Service.FirstIndex | travelProject/src/main/java/com/travel/travelProject/service/TravelPackageService.java:113-116 | `findFirst` finds the first matching position, or reports that no element matches |
| Service.ChosenActivity | travelProject/src/main/java/com/travel/travelProject/service/TravelPackageService.java:162-166 | the chosen activity is the first in itinerary order with the requested id; there is none exactly when no activity has that id |
| Service.AnyMatch | travelProject/src/main/java/com/travel/travelProject/service/TravelPackageService.java:129-130 | `anyMatch` holds exactly when some element satisfies the predicate |
| Service.HasNumber | travelProject/src/main/java/com/travel/travelProject/service/TravelPackageService.java:138-139 | some roster entry has the passenger number |
| Service.SignUpForActivity | travelProject/src/main/java/com/travel/travelProject/service/TravelPackageService.java:155-185 | the checks come in order: package NotFound, then passenger NotFound, then activity NotFound; with no free place the result is CapacityFull; with a free place but too little balance, InsufficientBalance; otherwise SignedUp, and the stored passenger is charged the tier price and gains the activity; only SignedUp writes |
| Service.SignUpInPackage | travelProject/src/main/java/com/travel/travelProject/service/TravelPackageService.java:162-181 | with the package and passenger loaded: activity NotFound, or the three-way decision on free places and price for the first activity with the id; only a grant writes |
| Service.GrantOrRefuse | travelProject/src/main/java/com/travel/travelProject/service/TravelPackageService.java:174-181 | no free place gives CapacityFull; a free place with too little balance gives InsufficientBalance; otherwise SignedUp, and the passenger record is overwritten with the charged passenger who gained the activity |
| Service.AddPassengerToTravelPackage | travelProject/src/main/java/com/travel/travelProject/service/TravelPackageService.java:134-151 | package NotFound; then a duplicate number is refused; then a full roster is PackageFull; success happens exactly when neither applies; errors write nothing; a success saves the passenger, appends it last to the roster and keeps the roster within capacity |
| Service.SaveActivity | travelProject/src/main/java/com/travel/travelProject/service/TravelPackageService.java:203-215 | an empty destination name is refused; otherwise the activity is stamped with the name and saved |
| Service.SaveDestination | travelProject/src/main/java/com/travel/travelProject/service/TravelPackageService.java:224-234 | a destination with an empty name is refused; otherwise it is saved |
| Service.IsActivityAlreadyPresent | travelProject/src/main/java/com/travel/travelProject/service/TravelPackageService.java:128-131 | some activity of the destination has the name |
| Service.RecordInDestination | travelProject/src/main/java/com/travel/travelProject/service/TravelPackageService.java:103-108 | the activity is saved stamped with the destination's name and referenced last on the stored destination; this fails exactly when that name is empty |
| Service.AttachToPackage | travelProject/src/main/java/com/travel/travelProject/service/TravelPackageService.java:110-125 | package NotFound; then the first itinerary entry with the destination id, or NotFound; that entry gains the activity and the package is saved |
| Service.SameFirstDestination | travelProject/src/main/java/com/travel/travelProject/service/TravelPackageService.java:113-116 | the first itinerary entry with a given id is the same before and after loading |
| Service.FirstIndexAgrees | travelProject/src/main/java/com/travel/travelProject/service/TravelPackageService.java:113-116 | two searches that match at the same positions find the same first position |
| Service.AddActivityToDestination | travelProject/src/main/java/com/travel/travelProject/service/TravelPackageService.java:90-131 | destination NotFound; then an activity of the same name on the destination is refused; then the activity and destination writes; then the package step |
| Service.AddDestinationToTravelPackage | travelProject/src/main/java/com/travel/travelProject/service/TravelPackageService.java:77-87 | package NotFound; otherwise the destination is tied to the package, saved, and appended last to the itinerary; success happens exactly when its activities have ids, and the only other error is UnsavedReference; errors write nothing |
| Service.CreateTravelPackage | travelProject/src/main/java/com/travel/travelProject/service/TravelPackageService.java:247-254 | with `existsByName` as `ExistsByName` (some stored package has the name): a name some package already has is refused and nothing is written; otherwise an empty package with that name and capacity is stored under the new id |
| Service.CreatePassenger | travelProject/src/main/java/com/travel/travelProject/service/TravelPackageService.java:242-245 | a new passenger with the given details and no sign-ups is saved under the new id |
| Service.CreateDestination | travelProject/src/main/java/com/travel/travelProject/service/TravelPackageService.java:237-240 | a new empty destination with the name is saved under the new id |
| Service.CreateActivity | travelProject/src/main/java/com/travel/travelProject/service/TravelPackageService.java:218-222 | a new activity with the given details is saved under the new id |
| ServiceProperties.EntriesAreRefCount | travelProject/src/main/java/com/travel/travelProject/service/TravelPackageService.java:66 | a roster resolved from references holds each passenger id as often as the references do |
| ServiceProperties.GrantedSignUp | travelProject/src/main/java/com/travel/travelProject/service/TravelPackageService.java:174-178 | a granted sign-up had a free place and an affordable price, and its only write replaces the passenger with one whose sign-ups gained the activity |
| ServiceProperties.GrantedInPackage | travelProject/src/main/java/com/travel/travelProject/service/TravelPackageService.java:174-178 | a sign-up granted within a loaded package had a chosen activity with a free place and an affordable price |
| ServiceProperties.ItineraryIgnoresPassengers | travelProject/src/main/java/com/travel/travelProject/service/TravelPackageService.java:177 | saving a passenger leaves every package's itinerary unchanged |
| ServiceProperties.SpacesAfterPassengerUpdate | travelProject/src/main/java/com/travel/travelProject/service/TravelPackageService.java:65-73 | one more sign-up for a stored passenger takes away as many free places as that passenger has entries on the roster |
| ServiceProperties.SignUpOccupancy | travelProject/src/main/java/com/travel/travelProject/service/TravelPackageService.java:155-185 | a granted sign-up keeps the itinerary; free places drop by the passenger's roster multiplicity, that is by one for a passenger on the roster once and by k for one listed k times |
| ServiceProperties.FreeAndAffordableIsGranted | travelProject/src/main/java/com/travel/travelProject/service/TravelPackageService.java:174-178 | an existing package and passenger, a found activity, a free place and an affordable price give SignedUp |
| ServiceProperties.SignUpKeepsWithinCapacity | travelProject/src/main/java/com/travel/travelProject/service/TravelPackageService.java:174-178 | when the passenger is on the roster at most once, a granted sign-up leaves at least zero free places |
| ServiceProperties.SignUpIgnoresEnrollment | travelProject/src/main/java/com/travel/travelProject/service/TravelPackageService.java:159-160 | a passenger who is not on the roster is still signed up, and occupancy does not change |
| ServiceProperties.RepeatedSignUpRecordsTwice | travelProject/src/main/java/com/travel/travelProject/service/TravelPackageService.java:174-178 | repeating a granted sign-up while a place is free and the price affordable is granted again, and the activity is listed twice |
| ServiceProperties.PremiumSignsUpTwice | travelProject/src/main/java/com/travel/travelProject/service/TravelPackageService.java:174-178 | for a premium passenger, the repeat needs only a free place |
| ServiceProperties.AddActivityWritesBeforePackageLookup | travelProject/src/main/java/com/travel/travelProject/service/TravelPackageService.java:103-111 | with a missing package the request fails, yet the activity is already stored and referenced last on the destination |
| ServiceProperties.AddActivityAppendsToBoth | travelProject/src/main/java/com/travel/travelProject/service/TravelPackageService.java:99-126 | a successful add found no activity of the same name; it stores the stamped activity, references it last on the stored destination, and appends it to the package's matching itinerary entry |
| ServiceProperties.ResavedRosterNoLonger | travelProject/src/main/java/com/travel/travelProject/service/TravelPackageService.java:84 | re-saving a loaded package never lengthens its roster references |
| ServiceProperties.PutKeepsRostersWithinCapacity | travelProject/src/main/java/com/travel/travelProject/service/TravelPackageService.java:144-147 | storing a package document whose roster is empty or fits its capacity keeps every roster in the store empty or within capacity |
| ServiceProperties.CreateKeepsRostersWithinCapacity | travelProject/src/main/java/com/travel/travelProject/service/TravelPackageService.java:247-254 | creating a package, with any capacity, keeps every roster empty or within capacity |
| ServiceProperties.AddDestinationKeepsRostersWithinCapacity | travelProject/src/main/java/com/travel/travelProject/service/TravelPackageService.java:77-87 | adding a destination keeps every roster empty or within capacity |
| ServiceProperties.AttachKeepsRostersWithinCapacity | travelProject/src/main/java/com/travel/travelProject/service/TravelPackageService.java:110-125 | the package step of adding an activity keeps every roster empty or within capacity |
| ServiceProperties.AddActivityKeepsRostersWithinCapacity | travelProject/src/main/java/com/travel/travelProject/service/TravelPackageService.java:90-126 | adding an activity keeps every roster empty or within capacity |
| ServiceProperties.AddPassengerKeepsRostersWithinCapacity | travelProject/src/main/java/com/travel/travelProject/service/TravelPackageService.java:144-150 | adding a passenger keeps every roster empty or within capacity |
| ServiceProperties.ServeKeepsRostersWithinCapacity | travelProject/src/main/java/com/travel/travelProject/service/TravelPackageService.java:77-254 | no request leaves a stored roster both non-empty and longer than its package's capacity; a package created with a negative capacity stays empty |
| ServiceProperties.SecondPassengerFindsPackageFull | travelProject/src/main/java/com/travel/travelProject/service/TravelPackageService.java:144-150 | in a new package with room for one, the first passenger is admitted and a second, with another number, gets PackageFull |

## Left out

- The HTTP controller, the repository interfaces, the Spring configuration and the response DTO. They route requests and hold no logic.
- `getAvailableActivities`, `getAllTravelPackages`, the `getById` lookups and `getPassengersForTravelPackage` are left out. They only read the store; `Documents.LoadPackage` and `Documents.LoadDestination` model what they return.
- Error message texts are left out. Each error is a variant that says which check failed and, for a lookup, which kind of record and which key.
- The `default` branch of `addSignedUpActivity` ("Invalid passenger type") is left out. A closed three-variant tier datatype cannot reach it.
- Null values are left out: null lists, null arguments to `saveActivity`/`saveDestination`, null names, and the NullPointerException that a null id raises inside a stream filter. Lists are always present, and a missing id is `None`, which never equals a requested id.
- Money is `real`, so the gold charge is exactly nine tenths of the cost. IEEE rounding, NaN and the -0.0 case of `Double.compare` are not modelled.
- Activities.HashCode: the hash of the `double` cost depends on its bit pattern, so it is the parameter `costHash`.
- Activities.StringHash: hashes Dafny characters, not UTF-16 code units, and its contract states only the 32-bit range.
- Capacity.AvailableSpaces: counts and capacities are unbounded integers. The `(int)` cast of the count and the 32-bit subtraction can wrap in Java, and that is not modelled.
- Concurrency is left out. Requests are served one after another, and races between concurrent sign-ups are not modelled.
- Id generation is the `newId` parameter. The model does not require that it is fresh.
- A reference whose target is not in the store is skipped on load, which is one reading of lazy `@DBRef` resolution. Nothing in the model deletes a record. Such references arise when `addDestinationToTravelPackage` stores a posted destination whose activities carry ids that were never saved. Saving a package or destination whose referenced record has no id fails with `UnsavedReference`.
- The `travelPackageID` argument of `saveDestination` is unused in the source, so `Service.SaveDestination` does not take it.
- ServiceProperties.SignUpKeepsWithinCapacity: covers a passenger who is on the roster at most once. The source does not prevent a package from referencing the same passenger twice, and each such entry counts again.
