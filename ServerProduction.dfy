/**
 * `server_production.py`: the production MCP server.  The flight search and
 * the seat-map call go to a remote API; here they are parameters: `search`
 * maps (origin, destination, date) to the search response (`{}` when the call
 * fails) and `seatResponse` is the seat-map response (`None` when the call
 * fails).  The cancellation feed and the profile store are parameters too.
 */
module ServerProduction {
  import opened Wrappers
  import opened PyValues
  import opened Dedup
  import opened Search
  import opened SeatMaps
  import opened Flights
  import opened ProfileLookup
  import Validator
  import opened Disruptions
  import Server

  // ---------------------------------------------------------------------------
  // Seats: no dedup, no code filter, travel class defaulting to "Y"

  /** `seat.get("assignable") and seat.get("availability", 0) > 0`. */
  function Listed(u: Unit): (listed: bool)
    ensures listed <==> Truthy(u.assignable.GetOr(Null)) && u.availability.Some? && u.availability.value > 0
  {
    TruthyField(u.assignable) && Availability(u) > 0
  }

  /** `[p.get("code") for p in properties]`. */
  function Codes(ps: seq<Property>): seq<Option<string>> {
    seq(|ps|, i requires 0 <= i < |ps| => ps[i].code)
  }

  datatype ListedSeat = ListedSeat(
    seatNumber: Option<string>,
    travelClass: string,
    availability: Option<int>,
    seatType: seq<Option<string>>)

  function MakeListed(u: Unit): (s: ListedSeat)
    ensures s.seatNumber == u.designator && s.availability == u.availability
    ensures u.travelClassCode.Some? ==> s.travelClass == u.travelClassCode.value
    ensures u.travelClassCode.None? ==> s.travelClass == "Y"
    ensures |s.seatType| == |u.properties.GetOr([])|
    ensures forall i :: 0 <= i < |s.seatType| ==> s.seatType[i] == u.properties.GetOr([])[i].code
  {
    ListedSeat(u.designator, u.travelClassCode.GetOr("Y"), u.availability, Codes(u.properties.GetOr([])))
  }

  /** The entries appended for a run of units, in order. */
  function ListedSeats(us: seq<Unit>): seq<ListedSeat> {
    Select(us, Listed, MakeListed)
  }

  /** Appending runs of units appends their entries: order and repeats are kept. */
  lemma ListedSeatsAppend(a: seq<Unit>, b: seq<Unit>)
    ensures ListedSeats(a + b) == ListedSeats(a) + ListedSeats(b)
  {
    SelectAppend(a, b, Listed, MakeListed);
  }

  /** Exactly the listed units contribute an entry, one entry per unit. */
  lemma ListedSeatsExact(us: seq<Unit>)
    ensures |ListedSeats(us)| <= |us|
    ensures forall s :: s in ListedSeats(us) <==> exists i :: 0 <= i < |us| && Listed(us[i]) && s == MakeListed(us[i])
  {
    SelectExact(us, Listed, MakeListed);
  }

  /** What the production seat extractor returns: nothing for a failed call or
      a response without "data", else one entry per listed unit in walk order. */
  function ProductionSeats(seatmapJson: Option<SeatDoc>): (r: seq<ListedSeat>)
    ensures seatmapJson.None? || seatmapJson.value.data.None? ==> r == []
    ensures seatmapJson.Some? ==>
              && |r| <= |AllUnits(seatmapJson.value)|
              && forall s :: s in r <==>
                   exists i :: 0 <= i < |AllUnits(seatmapJson.value)| && Listed(AllUnits(seatmapJson.value)[i])
                               && s == MakeListed(AllUnits(seatmapJson.value)[i])
  {
    if seatmapJson.None? || seatmapJson.value.data.None? then []
    else
      ListedSeatsExact(AllUnits(seatmapJson.value));
      ListedSeats(AllUnits(seatmapJson.value))
  }

  /** Every listed seat has positive availability. */
  lemma ListedSeatsAvailable(seatmapJson: Option<SeatDoc>, s: ListedSeat)
    requires s in ProductionSeats(seatmapJson)
    ensures s.availability.Some? && s.availability.value > 0
  {
  }

  /** Every seat the development server reports is also listed by the
      production extractor, with the same seat number and availability. */
  lemma DevelopmentSeatsListed(doc: SeatDoc, s: Server.CandidateSeat)
    requires s in Server.AvailableSeats(doc)
    ensures exists p :: p in ProductionSeats(Some(doc)) && p.seatNumber == s.seatNumber && p.availability == s.availability
  {
    var us := AllUnits(doc);
    var i :| 0 <= i < |us| && IsFirst(us, i, Bookable, Server.SeatKey) && s == Server.MakeSeat(us[i]);
    assert Bookable(us[i]);
    assert Listed(us[i]);
    assert MakeListed(us[i]) in ProductionSeats(Some(doc));
  }

  /** The innermost loop, over one compartment's units. */
  method AppendCabinSeats(seats0: seq<ListedSeat>, units: seq<Unit>) returns (seats: seq<ListedSeat>)
    ensures seats == seats0 + ListedSeats(units)
  {
    seats := seats0;
    var m := 0;
    while m < |units|
      invariant 0 <= m <= |units|
      invariant seats == seats0 + ListedSeats(units[..m])
    {
      var seat := units[m];
      assert units[..m + 1] == units[..m] + [seat];
      SelectSnoc(units[..m], seat, Listed, MakeListed);
      if TruthyField(seat.assignable) && Availability(seat) > 0 {
        seats := seats + [ListedSeat(seat.designator, seat.travelClassCode.GetOr("Y"), seat.availability,
                                     Codes(seat.properties.GetOr([])))];
      }
      m := m + 1;
    }
    assert units[..|units|] == units;
  }

  /** The loop over one deck's compartments. */
  method AppendDeckSeats(seats0: seq<ListedSeat>, cabins: seq<(string, Compartment)>) returns (seats: seq<ListedSeat>)
    ensures seats == seats0 + ListedSeats(CompartmentUnits(cabins))
  {
    seats := seats0;
    var k := 0;
    while k < |cabins|
      invariant 0 <= k <= |cabins|
      invariant seats == seats0 + ListedSeats(CompartmentUnits(cabins[..k]))
    {
      var units := UnitsOf(cabins[k].1);
      ghost var done := CompartmentUnits(cabins[..k]);
      seats := AppendCabinSeats(seats, units);
      assert cabins[..k + 1][..k] == cabins[..k];
      assert CompartmentUnits(cabins[..k + 1]) == done + units;
      ListedSeatsAppend(done, units);
      assert seats == seats0 + ListedSeats(done + units);
      k := k + 1;
    }
    assert cabins[..|cabins|] == cabins;
  }

  /** The loop over one seat map's decks. */
  method AppendMapSeats(seats0: seq<ListedSeat>, decks: seq<(string, Deck)>) returns (seats: seq<ListedSeat>)
    ensures seats == seats0 + ListedSeats(DeckUnits(decks))
  {
    seats := seats0;
    var j := 0;
    while j < |decks|
      invariant 0 <= j <= |decks|
      invariant seats == seats0 + ListedSeats(DeckUnits(decks[..j]))
    {
      var cabins := CompartmentsOf(decks[j].1);
      ghost var done := DeckUnits(decks[..j]);
      seats := AppendDeckSeats(seats, cabins);
      assert decks[..j + 1][..j] == decks[..j];
      assert DeckUnits(decks[..j + 1]) == done + CompartmentUnits(cabins);
      ListedSeatsAppend(done, CompartmentUnits(cabins));
      assert seats == seats0 + ListedSeats(done + CompartmentUnits(cabins));
      j := j + 1;
    }
    assert decks[..|decks|] == decks;
  }

  /** `extract_available_seats_from_seatmap` (production): the guard, then the
      loop over the seat maps (the inner loops are the three methods above). */
  method ExtractAvailableSeatsFromSeatmap(seatmapJson: Option<SeatDoc>) returns (seats: seq<ListedSeat>)
    ensures seats == ProductionSeats(seatmapJson)
  {
    if seatmapJson.None? || seatmapJson.value.data.None? {
      return [];
    }
    seats := [];
    var seatMaps := SeatMapsOf(seatmapJson.value);
    var i := 0;
    while i < |seatMaps|
      invariant 0 <= i <= |seatMaps|
      invariant seats == ListedSeats(EntryUnits(seatMaps[..i]))
    {
      var decks := DecksOf(seatMaps[i]);
      ghost var done := EntryUnits(seatMaps[..i]);
      seats := AppendMapSeats(seats, decks);
      assert seatMaps[..i + 1][..i] == seatMaps[..i];
      assert EntryUnits(seatMaps[..i + 1]) == done + DeckUnits(decks);
      ListedSeatsAppend(done, DeckUnits(decks));
      i := i + 1;
    }
    assert seatMaps[..|seatMaps|] == seatMaps;
  }

  // ---------------------------------------------------------------------------
  // Flights: the development extractor without the fares

  function SummaryUid(f: FlightSummary): Option<string> {
    f.flightUid
  }

  /** One summary per journey key, from the first complete journey with that
      key; every key of a complete journey is represented, and no key twice. */
  function ProductionFlights(doc: FlightDoc): (r: seq<FlightSummary>)
    ensures |r| <= |AllJourneys(doc)|
    ensures forall f :: f in r <==>
              exists i :: 0 <= i < |AllJourneys(doc)| && IsFirst(AllJourneys(doc), i, Complete, JourneyKey)
                          && f == Summary(AllJourneys(doc)[i])
    ensures forall a, b :: 0 <= a < b < |r| ==> SummaryUid(r[a]) != SummaryUid(r[b])
    ensures forall k :: Tagged(r, SummaryUid, k) <==> Passing(AllJourneys(doc), Complete, JourneyKey, k)
  {
    DedupFacts(AllJourneys(doc), Complete, JourneyKey, Summary, SummaryUid);
    Values(Fold([], AllJourneys(doc), Complete, JourneyKey, Summary))
  }

  /** On the same response, the production flights are the development
      server's flights with the fares dropped, in the same order. */
  lemma SameFlightsAsDevelopment(doc: FlightDoc)
    ensures |ProductionFlights(doc)| == |Server.AvailableFlights(doc)|
    ensures forall i :: 0 <= i < |ProductionFlights(doc)| ==>
              ProductionFlights(doc)[i] == Server.AvailableFlights(doc)[i].summary
  {
    var js := AllJourneys(doc);
    var ys := FirstOf(js, Complete, JourneyKey);
    FoldIsFirstOf(js, Complete, JourneyKey, Summary);
    FoldIsFirstOf(js, Complete, JourneyKey, Priced);
    forall i | 0 <= i < |ys| ensures ProductionFlights(doc)[i] == Server.AvailableFlights(doc)[i].summary {
      assert ProductionFlights(doc)[i] == Summary(ys[i]);
      assert Server.AvailableFlights(doc)[i] == Priced(ys[i]);
    }
  }

  /** The inner loop, over one trip's journeys: the dict after it is the dict
      before it, folded over the journeys. */
  method CollectTripFlights(d0: seq<(Option<string>, FlightSummary)>, journeys: seq<Journey>)
    returns (d: seq<(Option<string>, FlightSummary)>)
    ensures d == Fold(d0, journeys, Complete, JourneyKey, Summary)
  {
    d := d0;
    var j := 0;
    while j < |journeys|
      invariant 0 <= j <= |journeys|
      invariant d == Fold(d0, journeys[..j], Complete, JourneyKey, Summary)
    {
      var journey := journeys[j];
      assert journeys[..j + 1] == journeys[..j] + [journey];
      FoldSnoc(d0, journeys[..j], journey, Complete, JourneyKey, Summary);
      var segments := journey.segments.GetOr([]);
      if segments == [] {
        j := j + 1;
        continue;
      }
      var segment := segments[0];
      var identifier := IdentifierOf(segment);
      var designator := DesignatorOf(segment);
      if !(TruthyText(identifier.carrierCode) && TruthyText(identifier.identifier)
           && TruthyText(designator.utcDeparture)) {
        j := j + 1;
        continue;
      }
      var flightUid := journey.journeyKey;
      if HasKey(d, flightUid) {
        j := j + 1;
        continue;
      }
      var summary := FlightSummary(
        flightUid,
        identifier.carrierCode.value + identifier.identifier.value,
        designator.origin, designator.destination, designator.utcDeparture, designator.utcArrival,
        journey.stops.GetOr(Null), journey.flightType.GetOr(Null),
        segment.isStretch.GetOr(Bool(false)), journey.fillingFast.GetOr(Bool(false)));
      assert summary == Summary(journey);
      d := d + [(flightUid, summary)];
      j := j + 1;
    }
    assert journeys[..|journeys|] == journeys;
  }

  /** `extract_available_flights` (production). */
  method ExtractAvailableFlights(flightsJson: FlightDoc) returns (flights: seq<FlightSummary>)
    ensures flights == ProductionFlights(flightsJson)
  {
    var d: seq<(Option<string>, FlightSummary)> := [];
    var trips := TripsOf(flightsJson);
    var i := 0;
    while i < |trips|
      invariant 0 <= i <= |trips|
      invariant d == Fold([], TripJourneys(trips[..i]), Complete, JourneyKey, Summary)
    {
      var journeys := JourneysOf(trips[i]);
      ghost var before := TripJourneys(trips[..i]);
      d := CollectTripFlights(d, journeys);
      FoldAppend([], before, journeys, Complete, JourneyKey, Summary);
      assert trips[..i + 1][..i] == trips[..i];
      i := i + 1;
    }
    assert trips[..|trips|] == trips;
    flights := Values(d);
  }

  // ---------------------------------------------------------------------------
  // The `recover_passenger` tool

  /** `s[:n]`. */
  function Prefix(s: string, n: nat): (r: string)
    ensures r <= s
    ensures |r| == if |s| <= n then |s| else n
  {
    if |s| <= n then s else s[..n]
  }

  /** The date sent to the flight search: the first ten characters of the
      scheduled departure time. */
  function SearchDate(c: Cancellation): string {
    Prefix(c.scheduledDepartureTime, 10)
  }

  /** The gate as written: `not eligibility or not eligibility.get("eligible")`
      rejects. */
  function Admits(e: Validator.Result): (admitted: bool)
    ensures !admitted
  {
    !(EmptyResult(e) || !TruthyField(Validator.EligibleField(e)))
  }

  /** The reply of the production `recover_passenger` for a given gate. */
  function Recovery(admits: Validator.Result -> bool, cancellations: seq<Cancellation>,
                    store: Option<seq<Profiles.Profile>>, search: (string, string, string) -> FlightDoc,
                    seatResponse: Option<SeatDoc>, pnr: string, lastName: string)
    : (r: Reply<FlightSummary, ListedSeat>)
    ensures r.RequiredMissing? <==> pnr == "" || lastName == ""
    ensures r.PnrNotFound? <==>
              pnr != "" && lastName != "" && forall i :: 0 <= i < |cancellations| ==> cancellations[i].pnr != Some(pnr)
    ensures r.NotApplicable? ==> r.echoedPnr.None?
    ensures r.Ineligible? ==> r.reason.None?
    ensures r.NotApplicable? <==>
              pnr != "" && lastName != "" && FirstCancellation(cancellations, pnr).Some?
              && !IsCancelled(FirstCancellation(cancellations, pnr).value)
    ensures r.Success? <==>
              pnr != "" && lastName != "" && FirstCancellation(cancellations, pnr).Some?
              && IsCancelled(FirstCancellation(cancellations, pnr).value)
              && admits(Validator.Check(store, lastName, Contact(FirstCancellation(cancellations, pnr).value)))
    ensures r.Success? ==>
              && r.pnr == pnr
              && r.originalFlight == FirstCancellation(cancellations, pnr).value
              && r.passenger == PassengerOf(r.originalFlight, lastName,
                                            FindUsersSpec(store, lastName, Contact(r.originalFlight)))
              && r.availableFlights == ProductionFlights(search(r.originalFlight.origin, r.originalFlight.destination,
                                                                SearchDate(r.originalFlight)))
              && r.availableSeats == ProductionSeats(seatResponse)
  {
    if pnr == "" || lastName == "" then RequiredMissing
    else match FirstCancellation(cancellations, pnr)
      case None => PnrNotFound
      case Some(c) =>
        if !IsCancelled(c) then NotApplicable(None)
        else
          var contact := Contact(c);
          if !admits(Validator.Check(store, lastName, contact)) then Ineligible(None)
          else Success(pnr, PassengerOf(c, lastName, FindUsersSpec(store, lastName, contact)), c,
                       ProductionFlights(search(c.origin, c.destination, SearchDate(c))),
                       ProductionSeats(seatResponse))
  }

  /** `recover_passenger` (production). */
  method RecoverPassenger(cancellations: seq<Cancellation>, store: Option<seq<Profiles.Profile>>,
                          search: (string, string, string) -> FlightDoc, seatResponse: Option<SeatDoc>,
                          pnr: string, lastName: string)
    returns (r: Reply<FlightSummary, ListedSeat>)
    ensures r == Recovery(Admits, cancellations, store, search, seatResponse, pnr, lastName)
  {
    if pnr == "" || lastName == "" {
      return RequiredMissing;
    }
    var cancellation := FindCancellation(cancellations, pnr);
    if cancellation.None? {
      return PnrNotFound;
    }
    var c := cancellation.value;
    if c.eventType != Some(FlightCancelled) {
      return NotApplicable(None);
    }
    var email := Email(c);
    var phone := Phone(c);
    var contact := if TruthyText(email) then email.value else phone;
    var eligibility := Validator.ValidateRequest(store, lastName, contact);
    if EmptyResult(eligibility) || !TruthyField(Validator.EligibleField(eligibility)) {
      return Ineligible(None);
    }
    var profile := FindUsers(store, lastName, contact);
    var date := Prefix(c.scheduledDepartureTime, 10);
    var flights := ExtractAvailableFlights(search(c.origin, c.destination, date));
    var seats := ExtractAvailableSeatsFromSeatmap(seatResponse);
    return Success(pnr, Passenger(lastName, email, phone, profile), c, flights, seats);
  }

  /** As written, the production tool never succeeds: no result of the
      eligibility check carries a truthy "eligible" key, so an eligible
      passenger is turned away like every other. */
  lemma NeverSucceeds(cancellations: seq<Cancellation>, store: Option<seq<Profiles.Profile>>,
                      search: (string, string, string) -> FlightDoc, seatResponse: Option<SeatDoc>,
                      pnr: string, lastName: string)
    ensures !Recovery(Admits, cancellations, store, search, seatResponse, pnr, lastName).Success?
  {
  }

  /** In particular an eligible passenger with a cancelled flight is told ineligible. */
  lemma EligibleTurnedAway(cancellations: seq<Cancellation>, store: Option<seq<Profiles.Profile>>,
                           search: (string, string, string) -> FlightDoc, seatResponse: Option<SeatDoc>,
                           pnr: string, lastName: string)
    requires pnr != "" && lastName != ""
    requires FirstCancellation(cancellations, pnr).Some? && IsCancelled(FirstCancellation(cancellations, pnr).value)
    requires Validator.Check(store, lastName, Contact(FirstCancellation(cancellations, pnr).value)).EligibleUser?
    ensures Recovery(Admits, cancellations, store, search, seatResponse, pnr, lastName).Ineligible?
  {
  }

  /** With the intended gate, the production tool succeeds exactly when the
      first cancelled record's contact identifies an eligible profile. */
  lemma IntendedRecoveryIffEligible(cancellations: seq<Cancellation>, store: Option<seq<Profiles.Profile>>,
                                    search: (string, string, string) -> FlightDoc, seatResponse: Option<SeatDoc>,
                                    pnr: string, lastName: string)
    requires pnr != "" && lastName != ""
    requires FirstCancellation(cancellations, pnr).Some? && IsCancelled(FirstCancellation(cancellations, pnr).value)
    ensures Recovery(AdmitsIntended, cancellations, store, search, seatResponse, pnr, lastName).Success?
            <==> Validator.Check(store, lastName, Contact(FirstCancellation(cancellations, pnr).value)).EligibleUser?
  {
  }
}
