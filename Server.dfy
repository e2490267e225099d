/**
 * `server.py`: the development MCP server.  The three data files it loads at
 * start-up (cancellations, seat map, flight search) and the profile store of
 * the eligibility check are parameters.
 */
module Server {
  import opened Wrappers
  import opened PyValues
  import opened Dedup
  import opened Search
  import opened SeatMaps
  import opened Flights
  import opened ProfileLookup
  import Validator
  import opened Disruptions

  // ---------------------------------------------------------------------------
  // Seats

  /** The property codes reported as seat types. */
  const ComfortCodes: set<string> := {"WINDOW", "AISLE", "LEGROOM", "XL", "STRETCH"}

  /** A property whose code is a comfort code. */
  predicate IsComfort(p: Property) {
    p.code.Some? && p.code.value in ComfortCodes
  }

  function CodeOf(p: Property): string {
    p.code.GetOr("")
  }

  /** The comfort codes among a seat's properties, in order, repeats kept. */
  function SeatTypes(ps: seq<Property>): seq<string> {
    Select(ps, IsComfort, CodeOf)
  }

  /** A code is reported exactly when it is a comfort code some property carries. */
  lemma SeatTypesSpec(ps: seq<Property>)
    ensures forall c :: c in SeatTypes(ps) <==>
              c in ComfortCodes && exists i :: 0 <= i < |ps| && ps[i].code == Some(c)
  {
    SelectExact(ps, IsComfort, CodeOf);
    forall c ensures c in SeatTypes(ps) <==> c in ComfortCodes && exists i :: 0 <= i < |ps| && ps[i].code == Some(c) {
      if c in ComfortCodes && exists i :: 0 <= i < |ps| && ps[i].code == Some(c) {
        var i :| 0 <= i < |ps| && ps[i].code == Some(c);
        assert IsComfort(ps[i]) && c == CodeOf(ps[i]);
      }
    }
  }

  /** `f"{seat_number}-{travel_class}"`, where a missing value prints as "None". */
  function SeatKey(u: Unit): (key: string)
    ensures key == KeyOfSeat(MakeSeat(u))
  {
    OptionText(u.designator) + "-" + OptionText(u.travelClassCode)
  }

  datatype CandidateSeat = CandidateSeat(
    seatNumber: Option<string>,
    travelClass: Option<string>,
    availability: Option<int>,
    seatType: seq<string>)

  /** The key a result entry was stored under, read back from the entry. */
  function KeyOfSeat(s: CandidateSeat): string {
    OptionText(s.seatNumber) + "-" + OptionText(s.travelClass)
  }

  function MakeSeat(u: Unit): CandidateSeat {
    CandidateSeat(u.designator, u.travelClassCode, u.availability, SeatTypes(u.properties.GetOr([])))
  }

  /** The seats `extract_available_seats_from_seatmap` returns: one per seat key,
      taken from the first bookable unit with that key in walk order; every key
      of a bookable unit is represented, and no key twice. */
  function AvailableSeats(doc: SeatDoc): (r: seq<CandidateSeat>)
    ensures |r| <= |AllUnits(doc)|
    ensures forall s :: s in r <==>
              exists i :: 0 <= i < |AllUnits(doc)| && IsFirst(AllUnits(doc), i, Bookable, SeatKey)
                          && s == MakeSeat(AllUnits(doc)[i])
    ensures forall a, b :: 0 <= a < b < |r| ==> KeyOfSeat(r[a]) != KeyOfSeat(r[b])
    ensures forall k :: Tagged(r, KeyOfSeat, k) <==> Passing(AllUnits(doc), Bookable, SeatKey, k)
  {
    DedupFacts(AllUnits(doc), Bookable, SeatKey, MakeSeat, KeyOfSeat);
    Values(Fold([], AllUnits(doc), Bookable, SeatKey, MakeSeat))
  }

  /** Every reported seat is assignable now, has positive availability and
      only comfort codes as seat types. */
  lemma ReportedSeatsBookable(doc: SeatDoc, s: CandidateSeat)
    requires s in AvailableSeats(doc)
    ensures s.availability.Some? && s.availability.value > 0
    ensures forall c :: c in s.seatType ==> c in ComfortCodes
  {
    var us := AllUnits(doc);
    var i :| 0 <= i < |us| && IsFirst(us, i, Bookable, SeatKey) && s == MakeSeat(us[i]);
    SeatTypesSpec(us[i].properties.GetOr([]));
  }

  lemma {:induction false} FoldOfFiltered(us: seq<Unit>)
    ensures Fold([], FilterUnits(us), Bookable, SeatKey, MakeSeat) == Fold([], us, Bookable, SeatKey, MakeSeat)
    decreases |us|
  {
    if us != [] {
      var n := |us| - 1;
      FoldOfFiltered(us[..n]);
      var f := FilterUnits(us[..n]);
      if Bookable(us[n]) {
        assert FilterUnits(us) == f + [us[n]];
        assert (f + [us[n]])[..|f|] == f;
      } else {
        assert FilterUnits(us) == f + [];
        assert f + [] == f;
      }
    }
  }

  /** Running the extractor on the output of the structure-preserving filter
      gives the same seats as running it on the raw response. */
  lemma PrefilteredSeats(doc: SeatDoc)
    ensures AvailableSeats(FilterDoc(doc)) == AvailableSeats(doc)
  {
    FilterDocUnits(doc);
    FoldOfFiltered(AllUnits(doc));
  }

  /** The innermost loop of the walk, over one compartment's units: the dict
      after it is the dict before it, folded over the units. */
  method CollectCabinSeats(d0: seq<(string, CandidateSeat)>, units: seq<Unit>) returns (d: seq<(string, CandidateSeat)>)
    ensures d == Fold(d0, units, Bookable, SeatKey, MakeSeat)
  {
    d := d0;
    var m := 0;
    while m < |units|
      invariant 0 <= m <= |units|
      invariant d == Fold(d0, units[..m], Bookable, SeatKey, MakeSeat)
    {
      var seat := units[m];
      assert units[..m + 1] == units[..m] + [seat];
      FoldSnoc(d0, units[..m], seat, Bookable, SeatKey, MakeSeat);
      if !(IsTrue(seat.assignable) && Availability(seat) > 0) {
        m := m + 1;
        continue;
      }
      var key := OptionText(seat.designator) + "-" + OptionText(seat.travelClassCode);
      if HasKey(d, key) {
        m := m + 1;
        continue;
      }
      var seatTypes := SeatTypes(seat.properties.GetOr([]));
      d := d + [(key, CandidateSeat(seat.designator, seat.travelClassCode, seat.availability, seatTypes))];
      m := m + 1;
    }
    assert units[..|units|] == units;
  }

  /** The loop over one deck's compartments. */
  method CollectDeckSeats(d0: seq<(string, CandidateSeat)>, cabins: seq<(string, Compartment)>)
    returns (d: seq<(string, CandidateSeat)>)
    ensures d == Fold(d0, CompartmentUnits(cabins), Bookable, SeatKey, MakeSeat)
  {
    d := d0;
    var k := 0;
    while k < |cabins|
      invariant 0 <= k <= |cabins|
      invariant d == Fold(d0, CompartmentUnits(cabins[..k]), Bookable, SeatKey, MakeSeat)
    {
      var units := UnitsOf(cabins[k].1);
      ghost var done := CompartmentUnits(cabins[..k]);
      d := CollectCabinSeats(d, units);
      assert cabins[..k + 1][..k] == cabins[..k];
      assert CompartmentUnits(cabins[..k + 1]) == done + units;
      FoldAppend(d0, done, units, Bookable, SeatKey, MakeSeat);
      k := k + 1;
    }
    assert cabins[..|cabins|] == cabins;
  }

  /** The loop over one seat map's decks. */
  method CollectMapSeats(d0: seq<(string, CandidateSeat)>, decks: seq<(string, Deck)>)
    returns (d: seq<(string, CandidateSeat)>)
    ensures d == Fold(d0, DeckUnits(decks), Bookable, SeatKey, MakeSeat)
  {
    d := d0;
    var j := 0;
    while j < |decks|
      invariant 0 <= j <= |decks|
      invariant d == Fold(d0, DeckUnits(decks[..j]), Bookable, SeatKey, MakeSeat)
    {
      var cabins := CompartmentsOf(decks[j].1);
      ghost var done := DeckUnits(decks[..j]);
      d := CollectDeckSeats(d, cabins);
      assert decks[..j + 1][..j] == decks[..j];
      assert DeckUnits(decks[..j + 1]) == done + CompartmentUnits(cabins);
      FoldAppend(d0, done, CompartmentUnits(cabins), Bookable, SeatKey, MakeSeat);
      j := j + 1;
    }
    assert decks[..|decks|] == decks;
  }

  /** `extract_available_seats_from_seatmap`: the loop over the seat maps
      filling the dict (the inner loops are the three methods above), then
      its values. */
  method ExtractAvailableSeatsFromSeatmap(seatmapJson: SeatDoc) returns (seats: seq<CandidateSeat>)
    ensures seats == AvailableSeats(seatmapJson)
  {
    var d: seq<(string, CandidateSeat)> := [];
    var seatMaps := SeatMapsOf(seatmapJson);
    var i := 0;
    while i < |seatMaps|
      invariant 0 <= i <= |seatMaps|
      invariant d == Fold([], EntryUnits(seatMaps[..i]), Bookable, SeatKey, MakeSeat)
    {
      var decks := DecksOf(seatMaps[i]);
      ghost var done := EntryUnits(seatMaps[..i]);
      d := CollectMapSeats(d, decks);
      assert seatMaps[..i + 1][..i] == seatMaps[..i];
      assert EntryUnits(seatMaps[..i + 1]) == done + DeckUnits(decks);
      FoldAppend([], done, DeckUnits(decks), Bookable, SeatKey, MakeSeat);
      i := i + 1;
    }
    assert seatMaps[..|seatMaps|] == seatMaps;
    seats := Values(d);
  }

  // ---------------------------------------------------------------------------
  // Flights

  function FlightUid(f: PricedFlight): Option<string> {
    f.summary.flightUid
  }

  /** The flights `extract_available_flights` returns: one per journey key,
      priced from the first complete journey with that key in walk order; every
      key of a complete journey is represented, and no key twice. */
  function AvailableFlights(doc: FlightDoc): (r: seq<PricedFlight>)
    ensures |r| <= |AllJourneys(doc)|
    ensures forall f :: f in r <==>
              exists i :: 0 <= i < |AllJourneys(doc)| && IsFirst(AllJourneys(doc), i, Complete, JourneyKey)
                          && f == Priced(AllJourneys(doc)[i])
    ensures forall a, b :: 0 <= a < b < |r| ==> FlightUid(r[a]) != FlightUid(r[b])
    ensures forall k :: Tagged(r, FlightUid, k) <==> Passing(AllJourneys(doc), Complete, JourneyKey, k)
  {
    DedupFacts(AllJourneys(doc), Complete, JourneyKey, Priced, FlightUid);
    Values(Fold([], AllJourneys(doc), Complete, JourneyKey, Priced))
  }

  /** The fare loop: Economy and Business amounts, in order; other classes are dropped. */
  method PartitionFares(fares: seq<Fare>) returns (economy: seq<int>, business: seq<int>)
    ensures economy == FareAmounts(fares, "Economy")
    ensures business == FareAmounts(fares, "Business")
  {
    economy, business := [], [];
    var i := 0;
    while i < |fares|
      invariant 0 <= i <= |fares|
      invariant economy == FareAmounts(fares[..i], "Economy")
      invariant business == FareAmounts(fares[..i], "Business")
    {
      assert fares[..i + 1] == fares[..i] + [fares[i]];
      SelectSnoc(fares[..i], fares[i], OfClass("Economy"), Amount);
      SelectSnoc(fares[..i], fares[i], OfClass("Business"), Amount);
      if fares[i].fareClass == Some("Economy") {
        economy := economy + [fares[i].totalFareAmount];
      } else if fares[i].fareClass == Some("Business") {
        business := business + [fares[i].totalFareAmount];
      }
      i := i + 1;
    }
    assert fares[..|fares|] == fares;
  }

  /** The inner loop, over one trip's journeys: the dict after it is the dict
      before it, folded over the journeys. */
  method CollectTripFlights(d0: seq<(Option<string>, PricedFlight)>, journeys: seq<Journey>)
    returns (d: seq<(Option<string>, PricedFlight)>)
    ensures d == Fold(d0, journeys, Complete, JourneyKey, Priced)
  {
    d := d0;
    var j := 0;
    while j < |journeys|
      invariant 0 <= j <= |journeys|
      invariant d == Fold(d0, journeys[..j], Complete, JourneyKey, Priced)
    {
      var journey := journeys[j];
      assert journeys[..j + 1] == journeys[..j] + [journey];
      FoldSnoc(d0, journeys[..j], journey, Complete, JourneyKey, Priced);
      var segments := journey.segments.GetOr([]);
      if segments == [] {
        j := j + 1;
        continue;
      }
      var segment := segments[0];
      var identifier := IdentifierOf(segment);
      var designator := DesignatorOf(segment);
      if !(TruthyText(identifier.carrierCode) && TruthyText(identifier.identifier)
           && TruthyText(designator.utcDeparture)) {
        j := j + 1;
        continue;
      }
      var flightUid := journey.journeyKey;
      if HasKey(d, flightUid) {
        j := j + 1;
        continue;
      }
      var economy, business := PartitionFares(FaresOf(journey));
      var summary := FlightSummary(
        flightUid,
        identifier.carrierCode.value + identifier.identifier.value,
        designator.origin, designator.destination, designator.utcDeparture, designator.utcArrival,
        journey.stops.GetOr(Null), journey.flightType.GetOr(Null),
        segment.isStretch.GetOr(Bool(false)), journey.fillingFast.GetOr(Bool(false)));
      d := d + [(flightUid, PricedFlight(summary, MinOf(economy), MinOf(business)))];
      j := j + 1;
    }
    assert journeys[..|journeys|] == journeys;
  }

  /** `extract_available_flights`: the two nested loops filling the dict. */
  method ExtractAvailableFlights(flightsJson: FlightDoc) returns (flights: seq<PricedFlight>)
    ensures flights == AvailableFlights(flightsJson)
  {
    var d: seq<(Option<string>, PricedFlight)> := [];
    var trips := TripsOf(flightsJson);
    var i := 0;
    while i < |trips|
      invariant 0 <= i <= |trips|
      invariant d == Fold([], TripJourneys(trips[..i]), Complete, JourneyKey, Priced)
    {
      var journeys := JourneysOf(trips[i]);
      ghost var before := TripJourneys(trips[..i]);
      d := CollectTripFlights(d, journeys);
      FoldAppend([], before, journeys, Complete, JourneyKey, Priced);
      assert trips[..i + 1][..i] == trips[..i];
      i := i + 1;
    }
    assert trips[..|trips|] == trips;
    flights := Values(d);
  }

  // ---------------------------------------------------------------------------
  // The `recover_passenger` tool

  /** The gate as written: `not eligibility or eligibility.get("eligible") is False`
      rejects, anything else goes ahead. */
  function Admits(e: Validator.Result): (admitted: bool)
    ensures admitted <==> e.EligibleUser? || e.FileError?
  {
    !(EmptyResult(e) || Validator.EligibleField(e) == Some(Bool(false)))
  }

  /** The reply of `recover_passenger` for a given gate on the eligibility result. */
  function Recovery(admits: Validator.Result -> bool, cancellations: seq<Cancellation>,
                    store: Option<seq<Profiles.Profile>>, seatsJson: SeatDoc, flightsJson: FlightDoc,
                    pnr: string, lastName: string): (r: Reply<PricedFlight, CandidateSeat>)
    ensures r.RequiredMissing? <==> pnr == "" || lastName == ""
    ensures r.PnrNotFound? <==>
              pnr != "" && lastName != "" && forall i :: 0 <= i < |cancellations| ==> cancellations[i].pnr != Some(pnr)
    ensures r.NotApplicable? ==> r.echoedPnr == Some(pnr)
    ensures r.Ineligible? ==> r.reason == Some("NOT_HIGHSPENDER_OR_STUDENT")
    ensures (r.NotApplicable? || r.Ineligible? || r.Success?) ==>
              pnr != "" && lastName != "" && FirstCancellation(cancellations, pnr).Some?
    ensures r.NotApplicable? <==>
              pnr != "" && lastName != "" && FirstCancellation(cancellations, pnr).Some?
              && !IsCancelled(FirstCancellation(cancellations, pnr).value)
    ensures r.Success? <==>
              pnr != "" && lastName != "" && FirstCancellation(cancellations, pnr).Some?
              && IsCancelled(FirstCancellation(cancellations, pnr).value)
              && admits(Validator.Check(store, lastName, Contact(FirstCancellation(cancellations, pnr).value)))
    ensures r.Success? ==>
              && r.pnr == pnr
              && r.originalFlight == FirstCancellation(cancellations, pnr).value
              && r.originalFlight.pnr == Some(pnr)
              && r.passenger == PassengerOf(r.originalFlight, lastName,
                                            FindUsersSpec(store, lastName, Contact(r.originalFlight)))
              && r.availableFlights == AvailableFlights(flightsJson)
              && r.availableSeats == AvailableSeats(seatsJson)
  {
    if pnr == "" || lastName == "" then RequiredMissing
    else match FirstCancellation(cancellations, pnr)
      case None => PnrNotFound
      case Some(c) =>
        if !IsCancelled(c) then NotApplicable(Some(pnr))
        else
          var contact := Contact(c);
          if !admits(Validator.Check(store, lastName, contact)) then Ineligible(Some("NOT_HIGHSPENDER_OR_STUDENT"))
          else Success(pnr, PassengerOf(c, lastName, FindUsersSpec(store, lastName, contact)), c,
                       AvailableFlights(flightsJson), AvailableSeats(seatsJson))
  }

  /** `recover_passenger`: the chain of lookups, each early return a reply. */
  method RecoverPassenger(cancellations: seq<Cancellation>, store: Option<seq<Profiles.Profile>>,
                          seatsJson: SeatDoc, flightsJson: FlightDoc, pnr: string, lastName: string)
    returns (r: Reply<PricedFlight, CandidateSeat>)
    ensures r == Recovery(Admits, cancellations, store, seatsJson, flightsJson, pnr, lastName)
  {
    if pnr == "" || lastName == "" {
      return RequiredMissing;
    }
    var cancellation := FindCancellation(cancellations, pnr);
    if cancellation.None? {
      return PnrNotFound;
    }
    var c := cancellation.value;
    if c.eventType != Some(FlightCancelled) {
      return NotApplicable(Some(pnr));
    }
    var email := Email(c);
    var phone := Phone(c);
    var contact := if TruthyText(email) then email.value else phone;
    var eligibility := Validator.ValidateRequest(store, lastName, contact);
    if EmptyResult(eligibility) || Validator.EligibleField(eligibility) == Some(Bool(false)) {
      return Ineligible(Some("NOT_HIGHSPENDER_OR_STUDENT"));
    }
    var profile := FindUsers(store, lastName, contact);
    var availableSeats := ExtractAvailableSeatsFromSeatmap(seatsJson);
    var availableFlights := ExtractAvailableFlights(flightsJson);
    return Success(pnr, Passenger(lastName, email, phone, profile), c, availableFlights, availableSeats);
  }

  /** As written, an eligibility check that could not load its profile file
      lets the recovery go ahead: `{"status": "error"}` is non-empty and has
      no "eligible" key. */
  lemma MissingProfileFileAdmitted(cancellations: seq<Cancellation>, seatsJson: SeatDoc, flightsJson: FlightDoc,
                                   pnr: string, lastName: string)
    requires pnr != "" && lastName != ""
    requires FirstCancellation(cancellations, pnr).Some? && IsCancelled(FirstCancellation(cancellations, pnr).value)
    ensures Recovery(Admits, cancellations, None, seatsJson, flightsJson, pnr, lastName).Success?
    ensures Recovery(Admits, cancellations, None, seatsJson, flightsJson, pnr, lastName).passenger.pastData
            == LookupFileError
  {
  }

  /** With the intended gate, the recovery succeeds exactly when the first
      cancelled record's contact identifies an eligible profile. */
  lemma IntendedRecoveryIffEligible(cancellations: seq<Cancellation>, store: Option<seq<Profiles.Profile>>,
                                    seatsJson: SeatDoc, flightsJson: FlightDoc, pnr: string, lastName: string)
    requires pnr != "" && lastName != ""
    requires FirstCancellation(cancellations, pnr).Some? && IsCancelled(FirstCancellation(cancellations, pnr).value)
    ensures Recovery(AdmitsIntended, cancellations, store, seatsJson, flightsJson, pnr, lastName).Success?
            <==> Validator.Check(store, lastName, Contact(FirstCancellation(cancellations, pnr).value)).EligibleUser?
    ensures Recovery(AdmitsIntended, cancellations, store, seatsJson, flightsJson, pnr, lastName).Success?
            ==> store.Some?
  {
  }

  /** The as-written gate agrees with the intended one on every result except
      the file error. */
  lemma GatesDifferOnlyOnFileError(e: Validator.Result)
    ensures Admits(e) <==> AdmitsIntended(e) || e.FileError?
  {
  }
}
