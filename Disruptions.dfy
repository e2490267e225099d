/**
 * The cancellation feed both MCP servers read, the lookup of a PNR in it, the
 * contact a record yields, and the reply the `recover_passenger` tool builds.
 */
module Disruptions {
  import opened Wrappers
  import opened PyValues
  import opened Search
  import opened Profiles
  import opened ProfileLookup
  import Validator

  /** One record of the cancellation feed.  `origin`, `destination` and
      `scheduled_departure_time` are indexed directly by the production server,
      so they are required here; every other key may be absent. */
  datatype Cancellation = Cancellation(
    pnr: Option<string>,
    eventType: Option<string>,
    origin: string,
    destination: string,
    scheduledDepartureTime: string,
    userInfo: Option<UserInfo>,
    rest: seq<(string, Value)>)

  /** The condition `find_cancellation` tests. */
  function HasPnr(pnr: string): Cancellation -> bool {
    (c: Cancellation) => c.pnr == Some(pnr)
  }

  /** The first record whose PNR is `pnr`, if any. */
  function FirstCancellation(cs: seq<Cancellation>, pnr: string): (r: Option<Cancellation>)
    ensures r.None? <==> forall i :: 0 <= i < |cs| ==> cs[i].pnr != Some(pnr)
    ensures r.Some? ==>
              exists i :: 0 <= i < |cs| && cs[i] == r.value && cs[i].pnr == Some(pnr)
                          && forall j :: 0 <= j < i ==> cs[j].pnr != Some(pnr)
  {
    match FirstFrom(cs, HasPnr(pnr), 0)
    case None => None
    case Some(i) => Some(cs[i])
  }

  /** `find_cancellation`: the scan returning the first record with the PNR. */
  method FindCancellation(cancellations: seq<Cancellation>, pnr: string) returns (r: Option<Cancellation>)
    ensures r == FirstCancellation(cancellations, pnr)
  {
    var i := 0;
    while i < |cancellations|
      invariant 0 <= i <= |cancellations|
      invariant FirstFrom(cancellations, HasPnr(pnr), i) == FirstFrom(cancellations, HasPnr(pnr), 0)
    {
      if cancellations[i].pnr == Some(pnr) {
        return Some(cancellations[i]);
      }
      i := i + 1;
    }
    return None;
  }

  /** Only this event type is recoverable. */
  const FlightCancelled: string := "flight_cancelled"

  predicate IsCancelled(c: Cancellation) {
    c.eventType == Some(FlightCancelled)
  }

  function UserInfoOf(c: Cancellation): UserInfo {
    c.userInfo.GetOr(EmptyInfo)
  }

  /** `user_info.get("USR_EMAIL")`. */
  function Email(c: Cancellation): Option<string> {
    UserInfoOf(c).email
  }

  /** `str(user_info.get("USR_MOBILE", ""))`. */
  function Phone(c: Cancellation): string {
    MobileStr(UserInfoOf(c).mobile.GetOr(MobileText("")))
  }

  /** `email or phone`: the contact both servers validate and look up. */
  function Contact(c: Cancellation): string {
    if TruthyText(Email(c)) then Email(c).value else Phone(c)
  }

  /** The `passenger` object of a successful reply. */
  datatype Passenger = Passenger(lastName: string, email: Option<string>, phone: string, pastData: FindResult)

  /** The JSON payload of `recover_passenger`, with the flight and seat entries
      of the server that builds it. */
  datatype Reply<F, S> =
    | RequiredMissing
    | PnrNotFound
    | NotApplicable(echoedPnr: Option<string>)
    | Ineligible(reason: Option<string>)
    | Success(pnr: string, passenger: Passenger, originalFlight: Cancellation,
              availableFlights: seq<F>, availableSeats: seq<S>)

  function Status<F, S>(r: Reply<F, S>): string {
    match r
    case RequiredMissing => "error"
    case PnrNotFound => "error"
    case NotApplicable(_) => "not_applicable"
    case Ineligible(_) => "ineligible"
    case Success(_, _, _, _, _) => "success"
  }

  function Reason<F, S>(r: Reply<F, S>): Option<string> {
    match r
    case RequiredMissing => Some("PNR_AND_LAST_NAME_REQUIRED")
    case PnrNotFound => Some("PNR_NOT_FOUND")
    case NotApplicable(_) => Some("NO_FLIGHT_DISRUPTION")
    case Ineligible(reason) => reason
    case Success(_, _, _, _, _) => None
  }

  /** The passenger object for a record found under a last name. */
  function PassengerOf(c: Cancellation, lastName: string, pastData: FindResult): Passenger {
    Passenger(lastName, Email(c), Phone(c), pastData)
  }

  /** `not eligibility`: every dict the check returns has at least one key. */
  predicate EmptyResult(e: Validator.Result) {
    Validator.Keys(e) == {}
  }

  /** The gate as the eligibility check's results evidently mean it: only a
      result naming the eligible user lets the recovery go ahead. */
  function AdmitsIntended(e: Validator.Result): (admitted: bool)
    ensures admitted <==> "user_info" in Validator.Keys(e)
  {
    e.EligibleUser?
  }
}
