# DynamicIntent autorecovery core, modelled in Dafny

DynamicIntent is an airline "autorecovery" assistant. A passenger whose
flight was cancelled gives a PNR and a last name. An MCP tool then:

1. finds the disruption record for the PNR;
2. checks in a customer-profile store (the CDP file) whether the passenger is
   a high spender or a student;
3. answers with the passenger's profile, alternative flights and available
   seats.

There are two servers, a development one over local JSON files and a
production one over live flight and seat searches. Beside them sit the
profile tools: a class wrapping the store, a stand-alone eligibility
validator, an all-matches profile lookup and a structure-preserving
seat-map filter.

The model covers the deterministic core of those programs:

- the value normalisers;
- the last-name-and-contact matcher and its eligibility verdicts;
- the profile lookups;
- the seat-map filter;
- both servers' seat and flight extractors, with their deduplication;
- both servers' `recover_passenger` decision chains.

The JSON trees are typed datatypes. Every optional key is an `Option` field,
and every `.get(key, default)` is an accessor that applies the default. A
loop in the source is a `method` with a `while` loop. Each such method is
proved equal to a specification function, and the promised properties are
proved as that function's contract or as lemmas about it. The
`UserServiceWrapper` object, whose fields its methods update, is a `class`.

Modules, in dependency order:

- `Wrappers`: `Option`.
- `PyValues`: loose JSON scalars, Python truthiness, `strip`, `lower`, `isdigit`/`int`, `str` on numbers.
- `Normalize`: the two flag normalisers.
- `Search`: first index satisfying a condition, and an order-keeping filter-map.
- `Dedup`: an insertion-ordered dict in which the first insertion of a key wins.
- `Profiles`: profile records, the match predicate, the booking flags, the all-matches list.
- `Validator`: `tools/validator.py`.
- `ProfileLookup`: `tools/profile.py`.
- `SeatMaps`: the seat-map tree and the structure-preserving filter.
- `SeatAvailable`: `tools/seat_available.py`.
- `Common`: `tools/common.py`, the `UserServiceWrapper` class.
- `Flights`: the flight-search response.
- `Disruptions`: cancellation records and the reply of `recover_passenger`.
- `Server`: `server.py`.
- `ServerProduction`: `server_production.py`.

Three points of the code's behaviour that the model keeps as written:

- The eligibility scan continues past a record whose last name matches but
  whose contact does not (tools/common.py:72-73, tools/validator.py:53-54).
  The first record matching on both last name and contact decides.
- `tools/validator.py` answers `invalid_user_info` for an empty store and
  reports an error only for a missing file, where `tools/common.py` reports an
  error for an empty store (`Common.EmptyStoreDiffers`).
- Both servers' eligibility gates let through results other than an eligible
  one, or reject the eligible one; see "## Findings".

## Model

| member | source | states |
|---|---|---|
| PyValues.Strip | tools/common.py:59-60 | `str.strip()` over ASCII whitespace: the left trim followed by the right trim; what it keeps is stated by `PyValues.StripSpec` |
| PyValues.Norm | tools/common.py:59-60 | `.strip().lower()`, the normal form every matcher compares on both the query and the record |
| PyValues.TrimLeftBlank | tools/common.py:59-60 | a text of whitespace only strips to nothing |
| PyValues.TrimLeftSpec | tools/common.py:59-60 | the left-trimmed text is a suffix of the input, every dropped character is whitespace, and it does not start with whitespace |
| PyValues.TrimRightSpec | tools/common.py:59-60 | the right-trimmed text is a prefix of the input, every dropped character is whitespace, and it does not end with whitespace |
| PyValues.StripSpec | tools/common.py:59-60 | `strip()` returns a contiguous slice of the input with only whitespace cut from either end, and the result neither starts nor ends with whitespace |
| PyValues.LowerSpec | tools/common.py:59-60 | `lower()` keeps the length, leaves no upper-case ASCII letter, and changes no other character |
| PyValues.DecimalPositive | tools/common.py:49 | an all-digit text has a positive `int()` value exactly when one of its digits is not `0` |
| PyValues.NatToStr | tools/common.py:66 | `str()` of a number is a digit string |
| PyValues.NatToStrRoundTrip | tools/common.py:66 | reading back the decimal text of a number gives the number |
| Normalize.NormalizeBool | tools/common.py:33-40 | a true flag is truthy; a bool is itself; null and other kinds are false |
| Normalize.NormalizeStudent | tools/common.py:43-50 | a true flag is truthy; a bool is itself; null and other kinds are false |
| Normalize.NormOfEmpty | tools/common.py:39 | the empty text and every whitespace-only text normalise to the empty text, which is not a true flag text |
| Normalize.StudentText | tools/common.py:49 | a student text counts exactly when, stripped, it is a non-empty run of digits that is not all zeros |
| Normalize.StudentNumeral | tools/common.py:49 | the decimal text of a number counts as a student flag exactly when the number is positive |
| Normalize.BoolTextStable | tools/common.py:39 | writing a flag's verdict back as "true"/"false" text gives the same verdict |
| Normalize.IntFlags | tools/common.py:36-47 | an integer is a high-spender flag exactly when it is 1 and a student flag exactly when it is positive: 1 counts for both, an integer above 1 only as student, zero and negative integers for neither |
| Normalize.StudentZeroText | tools/common.py:49 | "0" is not a student flag |
| Normalize.StudentNonNumeralTexts | tools/common.py:49 | "-3" and "abc" are not student flags |
| Normalize.StudentPaddedText | tools/common.py:49 | " 2 " is a student flag: surrounding whitespace is ignored |
| Normalize.BoolPaddedUpperText | tools/common.py:39 | " YES" is a high-spender flag: case and padding are ignored |
| Normalize.BoolRejectedText | tools/common.py:39 | "no" is not a high-spender flag |
| Search.FirstFrom | server.py:32-36 | the index found satisfies the condition and none before it (from the start point) does; no index means none does |
| Search.FirstFromAt | server.py:32-36 | a satisfying index with none satisfying before it is the index the scan finds |
| Search.SelectSnoc | tools/profile.py:23-41 | one more element appends its image, if it passes, at the end |
| Search.SelectAppend | tools/profile.py:23-41 | the filter-map of a concatenation is the concatenation of the filter-maps: order is kept |
| Search.SelectExact | tools/profile.py:23-41 | the output is no longer than the input, and holds exactly the images of the passing elements |
| Search.SelectNone | tools/profile.py:43-45 | with no passing element the output is empty |
| Dedup.Values | server.py:80 | `list(d.values())` has exactly one value per entry of the dict; which values, in which order, is `Dedup.FoldIsFirstOf` |
| Dedup.FoldSnoc | server.py:58-63 | one more element adds an entry only when it passes and its key is new |
| Dedup.FoldAppend | server.py:83-106 | folding over a concatenation is folding over the second part from the result of the first: the nested loops are one fold |
| Dedup.Entries | server.py:73-78 | exactly one entry per chosen element; that the keys are the elements' keys, in order, is `Dedup.FoldIsFirstOf` |
| Dedup.FoldKeys | server.py:58-63 | a key is in the dict exactly when some passing element carries it |
| Dedup.FoldIsFirstOf | server.py:58-63 | the dict holds the first passing element of each key, in first-occurrence order |
| Dedup.FirstOfSound | server.py:58-63 | every chosen element is the first passing element with its key |
| Dedup.FirstOfComplete | server.py:58-63 | every first passing element of a key is chosen |
| Dedup.FirstOfUniqueKeys | server.py:58-63 | no key is chosen twice |
| Dedup.EntriesUnique | server.py:58-63 | the dict has unique keys |
| Dedup.DedupFacts | server.py:104-106 | the values are at most as many as the elements, are exactly the first-per-key passing elements, carry distinct keys, and cover every key of a passing element |
| Profiles.Matches | tools/common.py:62-73 | a record matches the normalised query when its normalised last name equals the last name and the contact equals its normalised mobile text or its normalised email; the same predicate serves tools/validator.py:41-54 and tools/profile.py:23-36 |
| Profiles.FlaggedBookingSuffices | tools/common.py:81-93 | a profile with one flagged booking anywhere among its bookings is eligible, whatever the others say |
| Profiles.NoFlaggedBooking | tools/common.py:78-93 | without any flagged booking neither flag is set |
| Profiles.IdentityOf | tools/common.py:96-102 | the echoed last name and email are the record's, when it has them |
| Profiles.MatchesOfSnoc | tools/profile.py:23-41 | one more record appends its entry, if it matches, at the end |
| Profiles.MatchesOfAppend | tools/profile.py:23-41 | the lookup over a split store is the two lookups concatenated: store order is kept |
| Profiles.MatchesOfExact | tools/profile.py:23-41 | every entry comes from a matching record, every matching record gives an entry, and there are at most as many entries as records |
| Profiles.FirstMatchFrom | tools/common.py:62-73 | the index found from a start point matches and no record between the start and it does; no index means none from the start matches |
| Profiles.FirstMatch | tools/common.py:62-73 | the first matching record: it matches and none before it does; none found means no record matches |
| Profiles.MatchesOfNone | tools/profile.py:43-45 | no matching record, no entry |
| Profiles.MatchesOfFirst | tools/common.py:132-161 | the all-matches list is empty exactly when no record matches, and otherwise starts with the first matching record |
| Profiles.FirstMatchAt | tools/common.py:62-73 | a matching record with no match before it is the first match |
| Profiles.FirstVerdict | tools/common.py:62-114 | no verdict exactly when no record matches; otherwise the verdict is from a matching record with no match before it |
| Profiles.VerdictIsFirstMatch | tools/common.py:132-161 | the record deciding the verdict is the first entry of the all-matches list |
| Profiles.AnyStep | tools/common.py:81-89 | one more booking extends each accumulated flag by OR |
| Validator.NormalizeBool | tools/validator.py:6-13 | the module's copy gives the same truth table as the shared one |
| Validator.NormalizeStudent | tools/validator.py:16-23 | the module's copy gives the same truth table as the shared one |
| Validator.EligibleField | tools/validator.py:74-92 | `result.get("eligible")` is present exactly when the result dict has that key |
| Validator.Check | tools/validator.py:26-92 | a missing store is an error; no fully matching record is `invalid_user_info` (an empty store included); an eligible result names the first fully matching record, one of whose bookings is flagged |
| Validator.ScanBookings | tools/validator.py:59-72 | both flags are the OR over all bookings |
| Validator.CheckUserAutorecoveryEligibility | tools/validator.py:26-92 | the scan that stops at the first fully matching record returns the check's result |
| Validator.ValidateRequest | tools/validator.py:110-115 | the MCP alias returns the same result as the check on every input |
| Validator.EligibleIffFlaggedBooking | tools/validator.py:59-89 | for a fixed first match, the result is eligible exactly when one of its bookings is flagged, and `{"eligible": False}` otherwise |
| Validator.EligibleHasNoEligibleKey | tools/validator.py:74-86 | the `eligible` key is missing exactly from the eligible and the error results, and wherever present it is `False` |
| ProfileLookup.FindUsersSpec | tools/profile.py:6-48 | a missing store is an error; `not_found` exactly when no record matches; otherwise exactly the matching records' entries, at most one per record |
| ProfileLookup.FindUsers | tools/profile.py:6-48 | the scan that appends each matching record's entry returns the specified lookup |
| SeatMaps.Bookable | tools/seat_available.py:22-25 | a unit is kept exactly when `assignable` is the boolean `True` and `availability` is present and positive |
| SeatMaps.FilterDoc | tools/seat_available.py:6-28 | the filtered copy of a response: a response without `data` or `seatMaps` as it is, otherwise every compartment filtered; its properties are the `SeatMaps.Filter*` lemmas below |
| SeatMaps.FilterCompartments | tools/seat_available.py:19-26 | the filtered compartments are as many as the original ones; names and order are kept by `SeatMaps.FilterKeepsShape` |
| SeatMaps.FilterDecks | tools/seat_available.py:16-26 | the filtered decks are as many as the original ones; names and order are kept by `SeatMaps.FilterKeepsShape` |
| SeatMaps.FilterEntries | tools/seat_available.py:12-26 | the filtered seat-map entries are as many as the original ones; their order is kept by `SeatMaps.FilterKeepsShape` |
| SeatMaps.FilterUnitsExact | tools/seat_available.py:22-26 | the kept units are exactly the bookable ones, and no more than before |
| SeatMaps.FilterUnitsAppend | tools/seat_available.py:22-26 | filtering distributes over concatenation, so relative order is kept |
| SeatMaps.FilterUnitsIdempotent | tools/seat_available.py:22-26 | a filtered unit list filters to itself |
| SeatMaps.FilterCompartmentSpec | tools/seat_available.py:20-26 | a compartment keeps its other keys, its `units` become its bookable units, and a compartment without `units` gains an empty list |
| SeatMaps.FilterDocIdempotent | tools/seat_available.py:6-28 | filtering the filtered response changes nothing |
| SeatMaps.FilterNoData | tools/seat_available.py:10 | a response without `data` or `seatMaps` comes back unchanged |
| SeatMaps.FilterKeepsShape | tools/seat_available.py:10-22 | everything outside the `units` lists is unchanged |
| SeatMaps.FilterCompartmentsUnits | tools/seat_available.py:19-26 | the units of the filtered compartments are the bookable units of the original ones, in order |
| SeatMaps.FilterDecksUnits | tools/seat_available.py:16-26 | the units of the filtered decks are the bookable units of the original ones, in order |
| SeatMaps.FilterEntriesUnits | tools/seat_available.py:12-26 | the units of the filtered entries are the bookable units of the original ones, in order |
| SeatMaps.FilterDocUnits | tools/seat_available.py:6-28 | walking the filtered response gives the bookable units of the original response, in walk order |
| SeatAvailable.FilterAvailableSeatsKeepStructure | tools/seat_available.py:6-28 | the nested loops that overwrite each `units` list of the copy return the filtered response |
| Common.EligibilitySpec | tools/common.py:52-120 | an empty store is "CDP data not loaded"; `not_found` exactly when no record matches; otherwise the first matching record decides, eligible exactly when one of its bookings is flagged, with both flags and the identity of that record |
| Common.ProfileSpec | tools/common.py:122-161 | an empty store is an error; `not_found` exactly when no record matches; otherwise a non-empty list holding exactly the matching records' entries |
| Common.SeatResultOf | tools/common.py:169-203 | no data or an empty dict is an error; otherwise the units are the bookable ones in walk order, the structure is unchanged, and the other top-level keys are kept |
| Common.UserServiceWrapper.constructor | tools/common.py:8-21 | the fields are set from the arguments; a missing profile file loads as an empty store; no seat data has been loaded yet |
| Common.UserServiceWrapper.LoadSeatData | tools/common.py:23-30 | the seat data is loaded once, only when a seat file is named; a missing file loads as `{}`; nothing else changes |
| Common.UserServiceWrapper.ScanBookings | tools/common.py:78-89 | both flags are the OR over all bookings |
| Common.UserServiceWrapper.CheckAutorecoveryEligibility | tools/common.py:52-120 | the scan returns the specified verdict on the loaded store |
| Common.UserServiceWrapper.FindUserProfile | tools/common.py:122-161 | the scan returns the specified lookup on the loaded store |
| Common.UserServiceWrapper.FilterAvailableSeats | tools/common.py:163-203 | a given document is filtered and the object is unchanged; without one, the seat file is loaded first and the loaded document is filtered |
| Common.UserServiceWrapper.GetUserCompleteInfo | tools/common.py:205-213 | the verdict and the lookup for the same query, with the given time stamp |
| Common.UserServiceWrapper.BatchCheckEligibility | tools/common.py:220-232 | one entry per input, in order, pairing the input with its verdict; missing fields read as "" |
| Common.AgreesWithValidator | tools/validator.py:26-92 | on a non-empty store the wrapper and the validator give the same verdict for every query and name the same passenger |
| Common.EmptyStoreDiffers | tools/common.py:53-57 | on an empty store the wrapper reports an error while the validator answers `invalid_user_info` |
| Common.AgreesWithProfileTool | tools/profile.py:21-48 | on a non-empty store the wrapper's lookup and the profile tool list the same records |
| Common.CompleteInfoConsistent | tools/common.py:205-213 | the verdict is an error or `not_found` exactly when the lookup is; an eligible verdict names the first profile listed |
| Disruptions.Contact | server.py:164-168 | the contact both servers check and look up: the record's email when it is a non-empty text, otherwise the text of its mobile |
| Disruptions.AdmitsIntended | tools/validator.py:74-92 | the corrected gate: it admits exactly the result that carries a `user_info`, the eligible user |
| Disruptions.FirstCancellation | server.py:32-36 | no record exactly when no record has the PNR; otherwise the first record with exactly that PNR |
| Disruptions.FindCancellation | server.py:32-36 | the loop returns the first record with the PNR, or none |
| Flights.Complete | server.py:89-102 | a journey is kept only when it has a first segment whose carrier code, flight number and departure time are non-empty texts |
| Flights.JourneyKey | server.py:104-106 | the dict key of a journey is its `journeyKey`, absent or not |
| Flights.Summary | server.py:117-127 | the flight id is the journey key, and the flight number is the carrier code followed by the flight number |
| Flights.FareAmounts | server.py:108-115 | the amounts are exactly those of the fares of the class |
| Flights.MinOf | server.py:128-129 | none exactly for no amount; otherwise an amount of the list that no amount undercuts |
| Flights.Priced | server.py:117-130 | a priced flight carries the journey's summary |
| Flights.MinEconomyFare | server.py:108-129 | the minimum economy fare is absent exactly when there is no Economy fare, and otherwise is the amount of an Economy fare that no Economy fare undercuts |
| Flights.MinBusinessFare | server.py:108-129 | the minimum business fare is absent exactly when there is no Business fare, and otherwise is the amount of a Business fare that no Business fare undercuts |
| Server.SeatKey | server.py:58-63 | the dict key `designator-travelClassCode` of a unit is the same text read back from the seat it emits, so distinct keys are distinct emitted seats |
| Server.SeatTypesSpec | server.py:65-71 | a code is reported exactly when it is a comfort code carried by some property |
| Server.AvailableSeats | server.py:39-80 | one seat per key, from the first bookable unit with that key; every key of a bookable unit is present, none twice; at most one seat per unit |
| Server.ReportedSeatsBookable | server.py:52-71 | every reported seat has positive availability and only comfort codes |
| Server.FoldOfFiltered | server.py:52-63 | removing unbookable units beforehand does not change the seat dict |
| Server.PrefilteredSeats | server.py:39-80 | the seats of a filtered seat map are the seats of the original |
| Server.CollectCabinSeats | server.py:51-78 | the innermost loop adds each cabin unit to the dict as the fold does |
| Server.CollectDeckSeats | server.py:50-78 | the compartment loop is the fold over the deck's units |
| Server.CollectMapSeats | server.py:47-78 | the deck loop is the fold over the seat map's units |
| Server.ExtractAvailableSeatsFromSeatmap | server.py:39-80 | the nested loops return the specified seats |
| Server.AvailableFlights | server.py:83-132 | one flight per journey key, from the first complete journey with that key; every key of a complete journey is present, none twice; at most one flight per journey |
| Server.PartitionFares | server.py:108-115 | the Economy and Business amounts, in order; other classes are dropped |
| Server.CollectTripFlights | server.py:88-130 | the journey loop adds each journey to the dict as the fold does |
| Server.ExtractAvailableFlights | server.py:83-132 | the nested loops return the specified flights |
| Server.Admits | server.py:169 | the gate as written admits exactly the eligible result and the file error |
| Server.Recovery | server.py:137-198 | PNR_AND_LAST_NAME_REQUIRED exactly for an empty input; PNR_NOT_FOUND exactly when no record has the PNR; not_applicable, with the PNR echoed, exactly for a record that is not a cancellation; success exactly when the gate admits the check on the record's email or phone, echoing that record, the profile lookup, the flights and the seats |
| Server.RecoverPassenger | server.py:137-198 | the chain of early returns gives the specified reply under the gate as written |
| Server.MissingProfileFileAdmitted | server.py:168-174 | as written, a missing profile file lets the recovery succeed, with the lookup's error as the passenger's history |
| Server.IntendedRecoveryIffEligible | server.py:168-174 | with the intended gate, recovery succeeds exactly when the check names an eligible user, and never without a store |
| Server.GatesDifferOnlyOnFileError | server.py:169 | the gate as written admits exactly what the intended gate admits, plus the file error |
| ServerProduction.Listed | server_production.py:191 | a unit is emitted exactly when `assignable` is truthy and `availability` is present and positive |
| ServerProduction.MakeListed | server_production.py:192-197 | the emitted seat carries the unit's designator and availability, its travel class or "Y" when there is none, and every property code in order |
| ServerProduction.ListedSeatsAppend | server_production.py:186-198 | the entries for concatenated runs of units are concatenated: order and repeats are kept |
| ServerProduction.ListedSeatsExact | server_production.py:190-197 | the entries are exactly those of the listed units, at most one per unit |
| ServerProduction.ProductionSeats | server_production.py:179-198 | no response or no `data` gives no seats; otherwise exactly the entries of units that are assignable and available, at most one per unit, with no deduplication |
| ServerProduction.ListedSeatsAvailable | server_production.py:191 | every emitted seat has positive availability |
| ServerProduction.DevelopmentSeatsListed | server_production.py:190-197 | every seat the development server reports is also emitted, with the same number and availability |
| ServerProduction.AppendCabinSeats | server_production.py:190-197 | the innermost loop appends the entries of the listed units |
| ServerProduction.AppendDeckSeats | server_production.py:189-197 | the compartment loop appends the entries of the deck's units |
| ServerProduction.AppendMapSeats | server_production.py:188-197 | the deck loop appends the entries of the seat map's units |
| ServerProduction.ExtractAvailableSeatsFromSeatmap | server_production.py:179-198 | the nested loops return the specified seats |
| ServerProduction.ProductionFlights | server_production.py:138-176 | one summary per journey key, from the first complete journey with that key; every key present, none twice, at most one per journey |
| ServerProduction.SameFlightsAsDevelopment | server_production.py:138-176 | on the same response, the production flights are the development flights without their fares, in the same order |
| ServerProduction.CollectTripFlights | server_production.py:143-174 | the journey loop adds each journey to the dict as the fold does |
| ServerProduction.ExtractAvailableFlights | server_production.py:138-176 | the nested loops return the specified flights |
| ServerProduction.Prefix | server_production.py:238 | the slice `s[:n]` is the prefix of the input of length `n`, or the whole input when it is no longer than `n` |
| ServerProduction.Admits | server_production.py:229 | the gate as written admits no result of the eligibility check at all |
| ServerProduction.Recovery | server_production.py:205-263 | the same chain as the development server, except that not_applicable echoes no PNR and ineligible carries no reason; success searches flights for the record's origin, destination and date prefix |
| ServerProduction.RecoverPassenger | server_production.py:205-263 | the chain of early returns gives the specified reply under the gate as written |
| ServerProduction.NeverSucceeds | server_production.py:229 | as written, the tool never succeeds on any input |
| ServerProduction.EligibleTurnedAway | server_production.py:229-232 | as written, an eligible passenger with a cancelled flight is told they are ineligible |
| ServerProduction.IntendedRecoveryIffEligible | server_production.py:228-232 | with the intended gate, recovery succeeds exactly when the check names an eligible user |

## Left out

- Reading files: the CDP profile file, the seat-data file, the module-level JSON loads of both servers, and the import-time script of `tools/seat_available.py`. The loaded contents are parameters or constructor arguments; `None` stands for a missing file.
- The output-file write of `filter_available_seats`, because it is I/O and does not affect the result.
- The HTTP calls to the flight and seat APIs and the request bodies they build. The flight search is a function parameter and the seat response an `Option` parameter.
- `dashboard_api.py` and `config/loader.py` are not part of this model. They hold the web endpoint, the agent polling and environment loading.
- The CLI `main()` menus, `print` and logging output, and MCP tool registration and `mcp.run`, because they are I/O.
- The clock: `Common.UserServiceWrapper.GetUserCompleteInfo` takes the time stamp as a parameter.
- The `{"content": [{"type": "json", "json": ...}]}` wrapper around each reply and the constant `"final": True` field that every reply of both servers carries. `Disruptions.Reply` is the payload; `Disruptions.Status` and `Disruptions.Reason` give its status and reason texts.
- The key name of the past data in the success reply: "Past Data" in `server.py` (server.py:189) and "past_data" in the production server (server_production.py:256). Both servers build the shared `Disruptions.Passenger`, whose `pastData` field stands for either key.
- Unicode: `strip`, `lower` and `isdigit` are modelled on ASCII, because non-ASCII whitespace, case mapping and digits are out of scope.
- Inputs on which the code raises: a `None` or non-string last name or email in a profile (`.strip()` fails); `null` where a list or dict is expected (`user_info`, `booking_details`, `units`, `properties`, and the other nodes of the JSON trees). The model types these fields as present and of the expected kind.
- `Disruptions.Cancellation` makes `origin`, `destination` and `scheduled_departure_time` mandatory. The production server indexes all three and raises without them (server_production.py:236-238). `server.py` only echoes them and accepts records that lack them; the model does not cover such records for either server.
- A JSON `null` under a key that has a `.get` default is read as if the key were absent, for the fields below. Booking flags and the other loosely typed values keep `null` as a value of its own.
  - `travelClassCode` in the production seats: `seat.get("travelClassCode", "Y")` emits `null` for a present `null`, while the model emits "Y" (server_production.py:194);
  - `USR_MOBILE`: `str(...)` gives the text "None" for a present `null`, while the model reads "" (tools/common.py:66, tools/validator.py:45, tools/profile.py:28, server.py:166);
  - `USR_FIRSTNAME`, `USR_MOBILE` and `USR_GUID` in the eligible identity: the code echoes `null` where the model echoes "" (tools/common.py:75-102, tools/validator.py:56-85).
- Fare amounts and seat availability are integers; float or null amounts are not modelled.
- `USR_MOBILE` is a text or an integer (`Profiles.Mobile`). A float or bool mobile, which `str()` renders as "9876543210.0" or "True" (tools/common.py:66), is not modelled.
- A flight's `carrierCode` and `identifier` are texts (`Flights.Identifier`). An integer flight number, which the code accepts and concatenates through the f-string (server.py:97-101, 119), is not modelled.
- Aliasing: the deep copies of the seat filters are value semantics on datatypes. The input "is not modified" holds because datatype values cannot be mutated.
- Keys the code never reads but copies into its output are kept in the seat tree (every `rest` field) and in a cancellation record's top level (`Disruptions.Cancellation.rest`, echoed as the original flight). They are dropped in these echoed objects:
  - the `user_info` of a profile, which keeps only its five `USR_` fields, in the lookup results of tools/profile.py:38-41 and tools/common.py:147-150 and so in the reply's past data;
  - each entry of `booking_details`, which keeps only its three flags, in the same places;
  - the `user_info` inside a cancellation record, which keeps only its five `USR_` fields, in the echoed original flight.
- Common.UserServiceWrapper.constructor: does not model a CDP file whose JSON is `null` or not a list, because the store is a list of records.

## Findings

| source | as written | input that shows it | evidently intended | confidence | as-written member | corrected member |
|---|---|---|---|---|---|---|
| server_production.py:229 | the gate `not eligibility or not eligibility.get("eligible")` rejects unless the result has a truthy `eligible` key, but the eligible result of tools/validator.py:74-86 holds only `user_info` | any PNR whose first record is a cancellation and whose contact identifies a profile with a flagged booking: the reply is ineligible | recovery goes ahead exactly when the check returns the eligible user | high (proved about the model; not executed) | ServerProduction.NeverSucceeds | ServerProduction.IntendedRecoveryIffEligible |
| server.py:169 | the gate `not eligibility or eligibility.get("eligible") is False` lets `{"status": "error"}` (tools/validator.py:36, profile file missing) through | a cancelled PNR while the profile file is missing: the reply is success, with the profile lookup's error as the passenger's history | a missing profile file declines the recovery like every non-eligible result | high (proved about the model; not executed) | Server.MissingProfileFileAdmitted | Server.IntendedRecoveryIffEligible |
