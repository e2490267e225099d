/**
 * The trip-search response tree:
 * `data.trips[].journeysAvailable[].segments[0].{identifier, designator}`, and
 * the flight summary both servers derive from a journey.
 */
module Flights {
  import opened Wrappers
  import opened PyValues
  import opened Search

  datatype Identifier = Identifier(carrierCode: Option<string>, identifier: Option<string>)
  datatype Designator = Designator(origin: Option<string>, destination: Option<string>,
                                   utcDeparture: Option<string>, utcArrival: Option<string>)
  datatype Segment = Segment(identifier: Option<Identifier>, designator: Option<Designator>, isStretch: Option<Value>)

  /** One fare of `passengerFares`; amounts are whole numbers. */
  datatype Fare = Fare(fareClass: Option<string>, totalFareAmount: int)

  datatype Journey = Journey(
    journeyKey: Option<string>,
    segments: Option<seq<Segment>>,
    stops: Option<Value>,
    flightType: Option<Value>,
    fillingFast: Option<Value>,
    passengerFares: Option<seq<Fare>>)   // absent and `null` alike

  datatype Trip = Trip(journeysAvailable: Option<seq<Journey>>)
  datatype FlightData = FlightData(trips: Option<seq<Trip>>)
  datatype FlightDoc = FlightDoc(data: Option<FlightData>)

  /** The `{}` the production search returns when the call fails. */
  const EmptyFlightDoc: FlightDoc := FlightDoc(None)

  function JourneysOf(t: Trip): seq<Journey> {
    t.journeysAvailable.GetOr([])
  }

  /** `flights_json.get("data", {}).get("trips", [])`. */
  function TripsOf(doc: FlightDoc): seq<Trip> {
    if doc.data.None? then [] else doc.data.value.trips.GetOr([])
  }

  /** The journeys in the order the two nested loops visit them. */
  function TripJourneys(ts: seq<Trip>): seq<Journey>
    decreases |ts|
  {
    if ts == [] then [] else TripJourneys(ts[..|ts| - 1]) + JourneysOf(ts[|ts| - 1])
  }

  function AllJourneys(doc: FlightDoc): seq<Journey> {
    TripJourneys(TripsOf(doc))
  }

  const NoSegment: Segment := Segment(None, None, None)

  /** `segments[0]`; only read once the list is known to be non-empty. */
  function FirstSegment(j: Journey): Segment {
    var segs := j.segments.GetOr([]);
    if segs == [] then NoSegment else segs[0]
  }

  function IdentifierOf(s: Segment): Identifier {
    s.identifier.GetOr(Identifier(None, None))
  }

  function DesignatorOf(s: Segment): Designator {
    s.designator.GetOr(Designator(None, None, None, None))
  }

  /** A journey is a candidate when it has a first segment whose carrier code,
      flight number and UTC departure are all truthy. */
  predicate Complete(j: Journey) {
    var seg := FirstSegment(j);
    && j.segments.GetOr([]) != []
    && TruthyText(IdentifierOf(seg).carrierCode)
    && TruthyText(IdentifierOf(seg).identifier)
    && TruthyText(DesignatorOf(seg).utcDeparture)
  }

  /** The dedup key, `journey.get("journeyKey")`, possibly `None`. */
  function JourneyKey(j: Journey): Option<string> {
    j.journeyKey
  }

  /** The fields both servers emit for a flight. */
  datatype FlightSummary = FlightSummary(
    flightUid: Option<string>,
    flightNumber: string,
    origin: Option<string>,
    destination: Option<string>,
    utcDeparture: Option<string>,
    utcArrival: Option<string>,
    stops: Value,
    flightType: Value,
    isStretch: Value,
    fillingFast: Value)

  /** The summary of a journey, from its first segment. */
  function Summary(j: Journey): (f: FlightSummary)
    ensures f.flightUid == JourneyKey(j)
    ensures Complete(j) ==>
              f.flightNumber == IdentifierOf(FirstSegment(j)).carrierCode.value
                                + IdentifierOf(FirstSegment(j)).identifier.value
  {
    var seg := FirstSegment(j);
    var id := IdentifierOf(seg);
    var des := DesignatorOf(seg);
    FlightSummary(
      j.journeyKey,
      OptionText(id.carrierCode) + OptionText(id.identifier),
      des.origin, des.destination, des.utcDeparture, des.utcArrival,
      j.stops.GetOr(Null), j.flightType.GetOr(Null),
      seg.isStretch.GetOr(Bool(false)), j.fillingFast.GetOr(Bool(false)))
  }

  function FaresOf(j: Journey): seq<Fare> {
    j.passengerFares.GetOr([])
  }

  /** The condition selecting the fares of one class. */
  function OfClass(fareClass: string): Fare -> bool {
    (f: Fare) => f.fareClass == Some(fareClass)
  }

  function Amount(f: Fare): int {
    f.totalFareAmount
  }

  /** The amounts of the fares of one class, in order. */
  function FareAmounts(fares: seq<Fare>, fareClass: string): (r: seq<int>)
    ensures forall x :: x in r <==> exists i :: 0 <= i < |fares| && fares[i].fareClass == Some(fareClass)
                                               && fares[i].totalFareAmount == x
  {
    SelectExact(fares, OfClass(fareClass), Amount);
    Select(fares, OfClass(fareClass), Amount)
  }

  /** `min(xs) if xs else None`. */
  function MinOf(xs: seq<int>): (m: Option<int>)
    ensures m.None? <==> xs == []
    ensures m.Some? ==> m.value in xs && forall x :: x in xs ==> m.value <= x
    decreases |xs|
  {
    if xs == [] then None
    else
      match MinOf(xs[1..])
      case None => Some(xs[0])
      case Some(m) =>
        assert forall x :: x in xs ==> x == xs[0] || x in xs[1..];
        Some(if xs[0] <= m then xs[0] else m)
  }

  /** A server.py flight: the summary plus the cheapest Economy and Business fare. */
  datatype PricedFlight = PricedFlight(summary: FlightSummary, minEconomyFare: Option<int>, minBusinessFare: Option<int>)

  function Priced(j: Journey): (f: PricedFlight)
    ensures f.summary == Summary(j)
  {
    PricedFlight(Summary(j), MinOf(FareAmounts(FaresOf(j), "Economy")), MinOf(FareAmounts(FaresOf(j), "Business")))
  }

  /** The cheapest Economy fare is an Economy fare of the journey and no
      Economy fare is cheaper; there is none exactly when the journey has no
      Economy fare.  Fares of other classes never count. */
  lemma MinEconomyFare(j: Journey)
    ensures Priced(j).minEconomyFare.None? <==>
              forall i :: 0 <= i < |FaresOf(j)| ==> FaresOf(j)[i].fareClass != Some("Economy")
    ensures Priced(j).minEconomyFare.Some? ==>
              (exists i :: 0 <= i < |FaresOf(j)| && FaresOf(j)[i].fareClass == Some("Economy")
                           && FaresOf(j)[i].totalFareAmount == Priced(j).minEconomyFare.value)
              && forall i :: 0 <= i < |FaresOf(j)| && FaresOf(j)[i].fareClass == Some("Economy") ==>
                               Priced(j).minEconomyFare.value <= FaresOf(j)[i].totalFareAmount
  {
    var fs := FaresOf(j);
    var xs := FareAmounts(fs, "Economy");
    forall i | 0 <= i < |fs| && fs[i].fareClass == Some("Economy") ensures fs[i].totalFareAmount in xs { }
  }

  /** The same for the cheapest Business fare. */
  lemma MinBusinessFare(j: Journey)
    ensures Priced(j).minBusinessFare.None? <==>
              forall i :: 0 <= i < |FaresOf(j)| ==> FaresOf(j)[i].fareClass != Some("Business")
    ensures Priced(j).minBusinessFare.Some? ==>
              (exists i :: 0 <= i < |FaresOf(j)| && FaresOf(j)[i].fareClass == Some("Business")
                           && FaresOf(j)[i].totalFareAmount == Priced(j).minBusinessFare.value)
              && forall i :: 0 <= i < |FaresOf(j)| && FaresOf(j)[i].fareClass == Some("Business") ==>
                               Priced(j).minBusinessFare.value <= FaresOf(j)[i].totalFareAmount
  {
    var fs := FaresOf(j);
    var xs := FareAmounts(fs, "Business");
    forall i | 0 <= i < |fs| && fs[i].fareClass == Some("Business") ensures fs[i].totalFareAmount in xs { }
  }
}
