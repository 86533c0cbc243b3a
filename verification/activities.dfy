/** The Activity record: a bookable event at a destination, its field-wise
    equality (the matcher the occupancy count relies on) and its hash. */
module Activities {
  import opened Results

  datatype Activity = Activity(
    id: Option<string>,
    name: string,
    description: string,
    cost: real,
    capacity: int,
    destinationName: string)

  /** The five-argument constructor: the last argument becomes the
      destination name and the id stays unset until the activity is saved. */
  function NewActivity(name: string, description: string, cost: real, capacity: int,
                       destinations: string): (a: Activity)
    ensures a.id == None
    ensures a.name == name && a.description == description
    ensures a.cost == cost && a.capacity == capacity
    ensures a.destinationName == destinations
  {
    Activity(None, name, description, cost, capacity, destinations)
  }

  /** `equals`: cost, capacity, id, name, description and destination name
      all agree.  It coincides with structural equality of the record. */
  function Equals(a: Activity, b: Activity): (r: bool)
    ensures r <==> a == b
  {
    && b.cost == a.cost
    && a.capacity == b.capacity
    && a.id == b.id
    && a.name == b.name
    && a.description == b.description
    && a.destinationName == b.destinationName
  }

  /** `equals` is an equivalence relation. */
  lemma EqualsIsEquivalence(a: Activity, b: Activity, c: Activity)
    ensures Equals(a, a)
    ensures Equals(a, b) <==> Equals(b, a)
    ensures Equals(a, b) && Equals(b, c) ==> Equals(a, c)
  {
  }

  /** Two records of the same activity id that differ in cost, description
      or capacity are different activities as far as occupancy goes. */
  lemma SameIdIsNotEnough(a: Activity, b: Activity)
    requires a.id == b.id
    requires a.cost != b.cost || a.description != b.description || a.capacity != b.capacity
    ensures !Equals(a, b)
  {
  }

  /** `setDestinations` replaces the destination name and nothing else. */
  function SetDestinations(a: Activity, destinations: string): (r: Activity)
    ensures r.destinationName == destinations
    ensures r.id == a.id && r.name == a.name && r.description == a.description
    ensures r.cost == a.cost && r.capacity == a.capacity
  {
    a.(destinationName := destinations)
  }

  const TwoTo32: int := 0x1_0000_0000

  /** Reduction of an unbounded integer to Java's 32-bit `int`. */
  function Int32(x: int): (r: int)
    ensures -0x8000_0000 <= r < 0x8000_0000
    ensures (x - r) % TwoTo32 == 0
  {
    var m := x % TwoTo32;
    if m >= 0x8000_0000 then m - TwoTo32 else m
  }

  /** `String.hashCode`: the running hash times 31 plus the next character,
      in 32-bit arithmetic. */
  function StringHash(s: string): (h: int)
    ensures -0x8000_0000 <= h < 0x8000_0000
  {
    if |s| == 0 then 0 else Int32(31 * StringHash(s[..|s| - 1]) + s[|s| - 1] as int)
  }

  /** `Objects.hash` over already-hashed fields: start at 1, then for each
      field the running hash times 31 plus the field's hash. */
  function CombineHashes(hs: seq<int>): (h: int)
    ensures |hs| > 0 ==> -0x8000_0000 <= h < 0x8000_0000
  {
    if |hs| == 0 then 1 else Int32(31 * CombineHashes(hs[..|hs| - 1]) + hs[|hs| - 1])
  }

  /** `hashCode` over the six fields `equals` compares.  The hash of a
      `double` depends on its bit pattern, so it is a parameter here. */
  function HashCode(a: Activity, costHash: real -> int): (h: int)
    ensures -0x8000_0000 <= h < 0x8000_0000
  {
    var idHash := match a.id case None => 0 case Some(s) => StringHash(s);
    CombineHashes([idHash, StringHash(a.name), StringHash(a.description),
                   costHash(a.cost), a.capacity, StringHash(a.destinationName)])
  }

  /** Activities that are `equals` have the same `hashCode`. */
  lemma EqualActivitiesHashAlike(a: Activity, b: Activity, costHash: real -> int)
    requires Equals(a, b)
    ensures HashCode(a, costHash) == HashCode(b, costHash)
  {
  }
}
