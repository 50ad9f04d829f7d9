/** The browser's list of tracked flights: the updaters that the
    local-storage hook applies to its array, keyed on `flightNumber`. */
module LocalFlights {
  import opened FlightTypes

  /** No two entries share a flight number. */
  predicate UniqueNumbers(flights: seq<Flight>) {
    forall i, j :: 0 <= i < j < |flights| ==> flights[i].flightNumber != flights[j].flightNumber
  }

  predicate HasNumber(flights: seq<Flight>, flightNumber: string) {
    exists i :: 0 <= i < |flights| && flights[i].flightNumber == flightNumber
  }

  /** `findIndex` on the flight number: the first position holding it, or
      -1 when none does. */
  function FindIndex(flights: seq<Flight>, flightNumber: string): (i: int)
    ensures -1 <= i < |flights|
    ensures i == -1 <==> !HasNumber(flights, flightNumber)
    ensures 0 <= i ==> flights[i].flightNumber == flightNumber
    ensures 0 <= i ==> forall j :: 0 <= j < i ==> flights[j].flightNumber != flightNumber
  {
    if |flights| == 0 then -1
    else if flights[0].flightNumber == flightNumber then 0
    else
      var rest := FindIndex(flights[1..], flightNumber);
      assert HasNumber(flights[1..], flightNumber) ==> HasNumber(flights, flightNumber);
      assert HasNumber(flights, flightNumber) ==> HasNumber(flights[1..], flightNumber) by {
        if HasNumber(flights, flightNumber) {
          var k :| 0 <= k < |flights| && flights[k].flightNumber == flightNumber;
          assert flights[1..][k - 1].flightNumber == flightNumber;
        }
      }
      if rest < 0 then -1 else rest + 1
  }

  /** `addFlight`: replace the first entry with the same flight number in
      place, or append when there is none. */
  function AddFlight(flights: seq<Flight>, flight: Flight): (r: seq<Flight>)
    ensures flight in r
    ensures HasNumber(flights, flight.flightNumber) ==>
              && |r| == |flights|
              && var i := FindIndex(flights, flight.flightNumber);
                 r[i] == flight && forall j :: 0 <= j < |r| && j != i ==> r[j] == flights[j]
    ensures !HasNumber(flights, flight.flightNumber) ==>
              |r| == |flights| + 1 && r[..|flights|] == flights && r[|flights|] == flight
  {
    var existing := FindIndex(flights, flight.flightNumber);
    if existing >= 0 then
      var replaced := flights[existing := flight];
      assert replaced[existing] == flight;
      replaced
    else flights + [flight]
  }

  /** Adding keeps flight numbers unique. */
  lemma AddFlightKeepsNumbersUnique(flights: seq<Flight>, flight: Flight)
    requires UniqueNumbers(flights)
    ensures UniqueNumbers(AddFlight(flights, flight))
  {
    var r := AddFlight(flights, flight);
    if HasNumber(flights, flight.flightNumber) {
      var i := FindIndex(flights, flight.flightNumber);
      forall a, b | 0 <= a < b < |r|
        ensures r[a].flightNumber != r[b].flightNumber
      {
        assert r[a].flightNumber == flights[a].flightNumber;
        assert r[b].flightNumber == flights[b].flightNumber;
      }
    }
  }

  /** Adding the same record twice is adding it once. */
  lemma AddFlightIdempotent(flights: seq<Flight>, flight: Flight)
    ensures AddFlight(AddFlight(flights, flight), flight) == AddFlight(flights, flight)
  {
    var once := AddFlight(flights, flight);
    var i := FindIndex(once, flight.flightNumber);
    if HasNumber(flights, flight.flightNumber) {
      var j := FindIndex(flights, flight.flightNumber);
      assert once[j].flightNumber == flight.flightNumber;
      assert i == j;
    } else {
      assert once[|flights|] == flight;
      assert i == |flights|;
    }
  }

  /** `removeFlight`: keep, in order, the entries with another number,
      every copy of each. */
  function RemoveFlight(flights: seq<Flight>, flightNumber: string): (r: seq<Flight>)
    ensures forall f :: f in r ==> f in flights && f.flightNumber != flightNumber
    ensures forall f :: f in flights && f.flightNumber != flightNumber ==> f in r
    ensures |r| <= |flights|
  {
    if flights == [] then []
    else
      var rest := RemoveFlight(flights[1..], flightNumber);
      assert forall f :: f in flights ==> f == flights[0] || f in flights[1..];
      if flights[0].flightNumber == flightNumber then rest else [flights[0]] + rest
  }

  /** Removing keeps every copy of every entry with another number. */
  lemma {:induction false} RemoveFlightKeepsEveryCopy(flights: seq<Flight>, flightNumber: string)
    ensures forall f :: multiset(RemoveFlight(flights, flightNumber))[f]
                        == if f.flightNumber == flightNumber then 0 else multiset(flights)[f]
  {
    if flights != [] {
      RemoveFlightKeepsEveryCopy(flights[1..], flightNumber);
      assert flights == [flights[0]] + flights[1..];
    }
  }

  /** `a` is `b` with some entries left out, the rest in their order. */
  predicate IsSubsequence(a: seq<Flight>, b: seq<Flight>)
    decreases |b|
  {
    if a == [] then true
    else if b == [] then false
    else if a[0] == b[0] then IsSubsequence(a[1..], b[1..])
    else IsSubsequence(a, b[1..])
  }

  /** Removing keeps the remaining entries in their original order. */
  lemma {:induction false} RemoveFlightKeepsOrder(flights: seq<Flight>, flightNumber: string)
    ensures IsSubsequence(RemoveFlight(flights, flightNumber), flights)
  {
    if flights != [] {
      RemoveFlightKeepsOrder(flights[1..], flightNumber);
      var rest := RemoveFlight(flights[1..], flightNumber);
      if flights[0].flightNumber != flightNumber {
        assert ([flights[0]] + rest)[1..] == rest;
      } else if rest != [] {
        SubsequenceOfTail(rest, flights);
      }
    }
  }

  lemma {:induction false} SubsequenceOfTail(a: seq<Flight>, b: seq<Flight>)
    requires b != [] && IsSubsequence(a, b[1..])
    ensures IsSubsequence(a, b)
    decreases |b|, |a|
  {
    if a != [] && a[0] == b[0] {
      SubsequenceDropHead(a, b[1..]);
    }
  }

  lemma {:induction false} SubsequenceDropHead(a: seq<Flight>, b: seq<Flight>)
    requires a != [] && IsSubsequence(a, b)
    ensures IsSubsequence(a[1..], b)
    decreases |b|, |a|
  {
    if a[0] == b[0] {
      if a[1..] != [] {
        SubsequenceOfTail(a[1..], b);
      }
    } else {
      SubsequenceDropHead(a, b[1..]);
      if a[1..] != [] {
        SubsequenceOfTail(a[1..], b);
      }
    }
  }

  /** Removing a number nobody has changes nothing. */
  lemma {:induction false} RemoveAbsentFlightIsIdentity(flights: seq<Flight>, flightNumber: string)
    requires !HasNumber(flights, flightNumber)
    ensures RemoveFlight(flights, flightNumber) == flights
  {
    if flights != [] {
      assert flights[0].flightNumber != flightNumber;
      assert !HasNumber(flights[1..], flightNumber);
      RemoveAbsentFlightIsIdentity(flights[1..], flightNumber);
    }
  }

  lemma {:induction false} RemoveFlightDistributes(a: seq<Flight>, b: seq<Flight>, flightNumber: string)
    ensures RemoveFlight(a + b, flightNumber) == RemoveFlight(a, flightNumber) + RemoveFlight(b, flightNumber)
  {
    if a == [] {
      assert a + b == b;
    } else {
      assert (a + b)[0] == a[0];
      assert (a + b)[1..] == a[1..] + b;
      RemoveFlightDistributes(a[1..], b, flightNumber);
    }
  }

  /** Adding a record and then removing its number leaves the list as
      removing the number alone would. */
  lemma RemoveAfterAdd(flights: seq<Flight>, flight: Flight)
    ensures RemoveFlight(AddFlight(flights, flight), flight.flightNumber) == RemoveFlight(flights, flight.flightNumber)
  {
    if HasNumber(flights, flight.flightNumber) {
      RemoveAfterReplace(flights, flight);
    } else {
      RemoveAfterAppend(flights, flight);
    }
  }

  lemma RemoveAfterReplace(flights: seq<Flight>, flight: Flight)
    requires HasNumber(flights, flight.flightNumber)
    ensures RemoveFlight(AddFlight(flights, flight), flight.flightNumber) == RemoveFlight(flights, flight.flightNumber)
  {
    var n := flight.flightNumber;
    var i := FindIndex(flights, n);
    AddFlightReplaces(flights, flight);
    RemoveDropsMatching(flights[..i], flight, flights[i + 1..], n);
    assert flights == flights[..i] + [flights[i]] + flights[i + 1..];
    RemoveDropsMatching(flights[..i], flights[i], flights[i + 1..], n);
  }

  /** Replacing splits the list around the first entry with the number. */
  lemma AddFlightReplaces(flights: seq<Flight>, flight: Flight)
    requires HasNumber(flights, flight.flightNumber)
    ensures var i := FindIndex(flights, flight.flightNumber);
            AddFlight(flights, flight) == flights[..i] + [flight] + flights[i + 1..]
  {
    var i := FindIndex(flights, flight.flightNumber);
    UpdateSplits(flights, i, flight);
  }

  lemma UpdateSplits(s: seq<Flight>, i: nat, x: Flight)
    requires i < |s|
    ensures s[i := x] == s[..i] + [x] + s[i + 1..]
  {
  }

  /** An entry with the removed number disappears from between its
      neighbours. */
  lemma RemoveDropsMatching(before: seq<Flight>, x: Flight, after: seq<Flight>, flightNumber: string)
    requires x.flightNumber == flightNumber
    ensures RemoveFlight(before + [x] + after, flightNumber)
            == RemoveFlight(before, flightNumber) + RemoveFlight(after, flightNumber)
  {
    RemoveFlightDistributes(before + [x], after, flightNumber);
    RemoveFlightDistributes(before, [x], flightNumber);
    assert RemoveFlight([x], flightNumber) == [];
    assert RemoveFlight(before, flightNumber) + [] == RemoveFlight(before, flightNumber);
  }

  lemma RemoveAfterAppend(flights: seq<Flight>, flight: Flight)
    requires !HasNumber(flights, flight.flightNumber)
    ensures RemoveFlight(AddFlight(flights, flight), flight.flightNumber) == RemoveFlight(flights, flight.flightNumber)
  {
    var n := flight.flightNumber;
    RemoveFlightDistributes(flights, [flight], n);
    assert RemoveFlight([flight], n) == [];
    assert RemoveFlight(flights, n) + [] == RemoveFlight(flights, n);
  }

  /** `updateFlights`: the list is replaced wholesale. */
  function UpdateFlights(flights: seq<Flight>, updatedFlights: seq<Flight>): (r: seq<Flight>)
    ensures r == updatedFlights
  {
    updatedFlights
  }

  /** `clearAllFlights`: the list becomes empty. */
  function ClearAllFlights(flights: seq<Flight>): (r: seq<Flight>)
    ensures |r| == 0
  {
    []
  }
}
