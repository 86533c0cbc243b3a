/** The Passenger record and the tier-priced charge that records a sign-up. */
module Passengers {
  import opened Results
  import opened Activities

  /** The closed set of passenger tiers. */
  datatype Tier = Standard | Gold | Premium

  datatype Passenger = Passenger(
    id: Option<string>,
    name: string,
    passengerNumber: string,
    tier: Tier,
    balance: real,
    signedUpActivities: seq<Activity>)

  /** The four-argument constructor: no id yet and no sign-ups. */
  function NewPassenger(name: string, passengerNumber: string, tier: Tier, balance: real): (p: Passenger)
    ensures p.id == None
    ensures p.name == name && p.passengerNumber == passengerNumber
    ensures p.tier == tier && p.balance == balance
    ensures p.signedUpActivities == []
  {
    Passenger(None, name, passengerNumber, tier, balance, [])
  }

  /** What a passenger of the tier pays for an activity of the given cost:
      all of it, nine tenths of it, or nothing. */
  function Price(tier: Tier, cost: real): (r: real)
    ensures tier == Standard ==> r == cost
    ensures tier == Gold ==> r == cost - cost * (10.0 / 100.0)
    ensures tier == Premium ==> r == 0.0
    ensures cost >= 0.0 ==> 0.0 <= r <= cost
  {
    match tier
    case Standard => cost
    case Gold => 0.9 * cost
    case Premium => 0.0
  }

  /** Whether the passenger's tier and balance allow a sign-up to `a`. */
  predicate CanAfford(p: Passenger, a: Activity)
  {
    p.tier == Premium || p.balance >= Price(p.tier, a.cost)
  }

  /** `addSignedUpActivity`: charge the tier's price and append the activity.
      Standard and gold passengers must be able to afford the price, and a
      refusal is raised before anything changes; premium passengers are
      never refused. */
  function AddSignedUpActivity(p: Passenger, a: Activity): (r: Result<Passenger>)
    ensures p.tier != Premium ==> (r.Ok? <==> p.balance >= Price(p.tier, a.cost))
    ensures p.tier == Premium ==> r.Ok?
    ensures r.Ok? <==> CanAfford(p, a)
    ensures r.Err? ==> r.error == InsufficientBalance
    ensures r.Ok? ==> r.value.balance == p.balance - Price(p.tier, a.cost)
    ensures r.Ok? ==> r.value.signedUpActivities == p.signedUpActivities + [a]
    ensures r.Ok? ==> r.value.(balance := p.balance, signedUpActivities := p.signedUpActivities) == p
    ensures r.Ok? && p.tier != Premium ==> r.value.balance >= 0.0
  {
    var activityCost := a.cost;
    match p.tier
    case Standard =>
      if p.balance >= activityCost then Ok(Charged(p, a, p.balance - activityCost))
      else Err(InsufficientBalance)
    case Gold =>
      var discountAmount := activityCost * (10.0 / 100.0);
      var discountedCost := activityCost - discountAmount;
      if p.balance >= discountedCost then Ok(Charged(p, a, p.balance - discountedCost))
      else Err(InsufficientBalance)
    case Premium =>
      Ok(Charged(p, a, p.balance))
  }

  /** The passenger after a granted sign-up, with the given new balance. */
  function Charged(p: Passenger, a: Activity, newBalance: real): Passenger {
    p.(balance := newBalance, signedUpActivities := p.signedUpActivities + [a])
  }

  /** A granted sign-up adds exactly one entry, at the end, and keeps every
      earlier entry where it was. */
  lemma SignUpAppendsOne(p: Passenger, a: Activity)
    requires AddSignedUpActivity(p, a).Ok?
    ensures var q := AddSignedUpActivity(p, a).value;
      && |q.signedUpActivities| == |p.signedUpActivities| + 1
      && q.signedUpActivities[|p.signedUpActivities|] == a
      && q.signedUpActivities[..|p.signedUpActivities|] == p.signedUpActivities
  {
    var q := AddSignedUpActivity(p, a).value;
    assert q.signedUpActivities == p.signedUpActivities + [a];
  }

  /** Refunding the price undoes the charge: the balance before is the
      balance after plus what the tier pays. */
  lemma ChargeIsPrice(p: Passenger, a: Activity)
    requires AddSignedUpActivity(p, a).Ok?
    ensures AddSignedUpActivity(p, a).value.balance + Price(p.tier, a.cost) == p.balance
  {
  }

  /** A standard passenger with 50 cannot take an activity costing 100. */
  lemma StandardShortOfFunds(p: Passenger, a: Activity)
    requires p.tier == Standard && p.balance == 50.0 && a.cost == 100.0
    ensures AddSignedUpActivity(p, a) == Err(InsufficientBalance)
  {
  }

  /** A gold passenger with 95 pays 90 for an activity costing 100 and keeps 5. */
  lemma GoldDiscountCovers(p: Passenger, a: Activity)
    requires p.tier == Gold && p.balance == 95.0 && a.cost == 100.0
    ensures AddSignedUpActivity(p, a).Ok?
    ensures AddSignedUpActivity(p, a).value.balance == 5.0
  {
  }
}
