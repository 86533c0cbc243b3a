/** Capacity accounting: an activity's free places are its capacity minus
    the sign-ups equal to it across a package's roster. */
module Capacity {
  import opened Results
  import opened Activities
  import opened Passengers
  import opened Packages

  /** How many entries of `xs` are `equals` to `a`: a filter-and-count that
      agrees with the multiplicity of `a` in `xs`. */
  function CountMatching(xs: seq<Activity>, a: Activity): (n: nat)
    ensures n == multiset(xs)[a]
  {
    if |xs| == 0 then 0
    else
      var front := xs[..|xs| - 1];
      var last := xs[|xs| - 1];
      assert xs == front + [last];
      CountMatching(front, a) + (if Equals(last, a) then 1 else 0)
  }

  /** Every roster entry's sign-ups, one list after the other. */
  function SignUps(ps: seq<Passenger>): seq<Activity> {
    if |ps| == 0 then [] else SignUps(ps[..|ps| - 1]) + ps[|ps| - 1].signedUpActivities
  }

  /** The per-passenger reading of occupancy: each roster entry contributes
      the number of its own sign-ups to `a`. */
  function Tally(ps: seq<Passenger>, a: Activity): nat {
    if |ps| == 0 then 0
    else Tally(ps[..|ps| - 1], a) + multiset(ps[|ps| - 1].signedUpActivities)[a]
  }

  /** Counting over the concatenated sign-ups is summing per passenger. */
  lemma {:induction false} CountIsTally(ps: seq<Passenger>, a: Activity)
    ensures CountMatching(SignUps(ps), a) == Tally(ps, a)
  {
    if |ps| > 0 {
      CountIsTally(ps[..|ps| - 1], a);
      var front := SignUps(ps[..|ps| - 1]);
      assert multiset(front + ps[|ps| - 1].signedUpActivities)
          == multiset(front) + multiset(ps[|ps| - 1].signedUpActivities);
    }
  }

  /** `calculateAvailableSpaces`: the activity's capacity less the roster's
      sign-ups equal to it.  Negative when over-subscribed. */
  function AvailableSpaces(t: TravelPackage, a: Activity): (r: int)
    ensures r == a.capacity - Tally(t.passengers, a)
    ensures r <= a.capacity
  {
    CountIsTally(t.passengers, a);
    a.capacity - CountMatching(SignUps(t.passengers), a)
  }

  /** How many roster entries carry the id `pid`. */
  function Entries(ps: seq<Passenger>, pid: string): nat {
    if |ps| == 0 then 0
    else Entries(ps[..|ps| - 1], pid) + (if ps[|ps| - 1].id == Some(pid) then 1 else 0)
  }

  /** When every roster entry with id `pid` gains one sign-up to `a` and no
      other entry changes its sign-ups, occupancy grows by the number of
      such entries. */
  lemma {:induction false} TallyAfterSignUp(ps: seq<Passenger>, qs: seq<Passenger>, pid: string, a: Activity)
    requires |ps| == |qs|
    requires forall i :: 0 <= i < |ps| ==>
      qs[i].id == ps[i].id &&
      qs[i].signedUpActivities ==
        (if ps[i].id == Some(pid) then ps[i].signedUpActivities + [a] else ps[i].signedUpActivities)
    ensures Tally(qs, a) == Tally(ps, a) + Entries(ps, pid)
  {
    if |ps| > 0 {
      var n := |ps| - 1;
      TallyAfterSignUp(ps[..n], qs[..n], pid, a);
      if ps[n].id == Some(pid) {
        assert multiset(ps[n].signedUpActivities + [a])
            == multiset(ps[n].signedUpActivities) + multiset{a};
      }
    }
  }
}
