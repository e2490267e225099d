/**
 * `tools/validator.py`: the eligibility check used by both MCP servers.  The
 * profile store it reads from a file is a parameter; `None` stands for the
 * file not being found.
 */
module Validator {
  import opened Wrappers
  import opened PyValues
  import Normalize
  import opened Profiles

  /** `normalize_bool`: the module's own copy of the high-spender normaliser. */
  function NormalizeBool(v: Value): (r: bool)
    ensures r == Normalize.NormalizeBool(v)
  {
    match v
    case Bool(b) => b
    case Int(i) => i == 1
    case Str(s) => Norm(s) in {"true", "1", "yes"}
    case _ => false
  }

  /** `normalize_student`: the module's own copy of the student normaliser. */
  function NormalizeStudent(v: Value): (r: bool)
    ensures r == Normalize.NormalizeStudent(v)
  {
    match v
    case Bool(b) => b
    case Int(i) => i > 0
    case Str(s) => IsDigits(Strip(s)) && DecimalValue(Strip(s)) > 0
    case _ => false
  }

  /** The four dicts the check returns. */
  datatype Result =
    | FileError                      // {"status": "error"}
    | EligibleUser(userInfo: Identity) // {"user_info": {...}}: no "eligible" key
    | NotEligible                    // {"eligible": False}
    | InvalidUserInfo                // {"eligible": False, "reason": "invalid_user_info"}

  /** The keys of the returned dict. */
  function Keys(r: Result): set<string> {
    match r
    case FileError => {"status"}
    case EligibleUser(_) => {"user_info"}
    case NotEligible => {"eligible"}
    case InvalidUserInfo => {"eligible", "reason"}
  }

  /** `result.get("eligible")`. */
  function EligibleField(r: Result): (v: Option<Value>)
    ensures v.Some? <==> "eligible" in Keys(r)
  {
    if r.NotEligible? || r.InvalidUserInfo? then Some(Bool(false)) else None
  }

  /** `check_user_autorecovery_eligibility` on a given store: a missing store is
      an error; no fully matching record is `invalid_user_info`; otherwise the
      first fully matching record alone decides, eligible exactly when one of its
      bookings is flagged high-spender or student. */
  function Check(store: Option<seq<Profile>>, lastName: string, emailOrPhone: string): (r: Result)
    ensures r.FileError? <==> store.None?
    ensures r.InvalidUserInfo? <==>
              store.Some? && forall j :: 0 <= j < |store.value| ==>
                               !Matches(store.value[j], Norm(lastName), Norm(emailOrPhone))
    ensures r.EligibleUser? ==>
              exists i :: 0 <= i < |store.value| && Matches(store.value[i], Norm(lastName), Norm(emailOrPhone))
                          && (forall j :: 0 <= j < i ==> !Matches(store.value[j], Norm(lastName), Norm(emailOrPhone)))
                          && (AnyHighSpender(BookingsOf(store.value[i])) || AnyStudent(BookingsOf(store.value[i])))
                          && r.userInfo == IdentityOf(InfoOf(store.value[i]))
  {
    if store.None? then FileError
    else match FirstVerdict(store.value, Norm(lastName), Norm(emailOrPhone))
         case NoMatch => InvalidUserInfo
         case Decided(p, high, student) =>
           if high || student then EligibleUser(IdentityOf(InfoOf(p))) else NotEligible
  }

  /** The loop over one record's bookings: each flag is OR-ed over all of them. */
  method ScanBookings(bookings: seq<Booking>) returns (isHighspender: bool, isStudent: bool)
    ensures isHighspender == AnyHighSpender(bookings)
    ensures isStudent == AnyStudent(bookings)
  {
    isHighspender, isStudent := false, false;
    var k := 0;
    while k < |bookings|
      invariant 0 <= k <= |bookings|
      invariant isHighspender == AnyHighSpender(bookings[..k])
      invariant isStudent == AnyStudent(bookings[..k])
    {
      var b := bookings[k];
      var hHigh := NormalizeBool(b.highSpenderHighFreq.GetOr(Bool(false)));
      var hLow := NormalizeBool(b.highSpenderLowFreq.GetOr(Bool(false)));
      var student := NormalizeStudent(b.student.GetOr(Int(0)));
      AnyStep(bookings, k);
      if hHigh || hLow {
        isHighspender := true;
      }
      if student {
        isStudent := true;
      }
      k := k + 1;
    }
    assert bookings[..k] == bookings;
  }

  /** The scan over the store, stopping at the first fully matching record. */
  method CheckUserAutorecoveryEligibility(store: Option<seq<Profile>>, lastName: string, emailOrPhone: string)
    returns (r: Result)
    ensures r == Check(store, lastName, emailOrPhone)
  {
    if store.None? {
      return FileError;
    }
    var users := store.value;
    var ln := Norm(lastName);
    var contact := Norm(emailOrPhone);
    var i := 0;
    while i < |users|
      invariant 0 <= i <= |users|
      invariant FirstMatchFrom(users, ln, contact, i) == FirstMatch(users, ln, contact)
    {
      var info := InfoOf(users[i]);
      if LastNameKey(info) != ln {
        i := i + 1;
        continue;
      }
      if !(contact == PhoneKey(info) || contact == EmailKey(info)) {
        i := i + 1;
        continue;
      }
      var bookings := BookingsOf(users[i]);
      var isHighspender, isStudent := ScanBookings(bookings);
      if isHighspender || isStudent {
        return EligibleUser(IdentityOf(info));
      }
      return NotEligible;
    }
    return InvalidUserInfo;
  }

  /** `validate_request`: the MCP alias, the same check on every input. */
  method ValidateRequest(store: Option<seq<Profile>>, lastName: string, emailOrPhone: string)
    returns (r: Result)
    ensures r == Check(store, lastName, emailOrPhone)
  {
    r := CheckUserAutorecoveryEligibility(store, lastName, emailOrPhone);
  }

  /** With the first fully matching record fixed, the check is eligible exactly
      when one of that record's bookings is flagged, and not eligible otherwise:
      adding a flagged booking flips it to eligible, removing all of them flips it back. */
  lemma EligibleIffFlaggedBooking(users: seq<Profile>, lastName: string, emailOrPhone: string, i: nat)
    requires i < |users| && Matches(users[i], Norm(lastName), Norm(emailOrPhone))
    requires forall j :: 0 <= j < i ==> !Matches(users[j], Norm(lastName), Norm(emailOrPhone))
    ensures Check(Some(users), lastName, emailOrPhone).EligibleUser? <==>
              exists k :: 0 <= k < |BookingsOf(users[i])| && Flagged(BookingsOf(users[i])[k])
    ensures !Check(Some(users), lastName, emailOrPhone).EligibleUser? ==>
              Check(Some(users), lastName, emailOrPhone) == NotEligible
  {
    FirstMatchAt(users, Norm(lastName), Norm(emailOrPhone), i);
  }

  /** A found record without any `eligible` key: the eligible result is the only
      non-error result whose `eligible` field is missing. */
  lemma EligibleHasNoEligibleKey(r: Result)
    ensures EligibleField(r).None? <==> r.EligibleUser? || r.FileError?
    ensures EligibleField(r).Some? ==> EligibleField(r) == Some(Bool(false))
  {
  }
}
