/**
 * `tools/common.py`: the `UserServiceWrapper` object, which loads the profile
 * store once, loads a seat-map file lazily, and answers eligibility, profile,
 * seat-filter and batch queries.  File contents are parameters: what the file
 * holds, or `None` when it is not found.
 */
module Common {
  import opened Wrappers
  import opened PyValues
  import opened Profiles
  import opened SeatMaps
  import SeatAvailable
  import Normalize
  import Validator
  import ProfileLookup

  /** The dicts `check_autorecovery_eligibility` returns. */
  datatype Eligibility =
    | CdpNotLoaded                                                   // status "error"
    | Eligible(userInfo: Identity, isHighspender: bool, isStudent: bool) // status "eligible"
    | NotEligible                                                    // status "not_eligible"
    | NotFound                                                       // status "not_found"

  function EligibilityStatus(e: Eligibility): string {
    match e
    case CdpNotLoaded => "error"
    case Eligible(_, _, _) => "eligible"
    case NotEligible => "not_eligible"
    case NotFound => "not_found"
  }

  /** The `eligible` key: absent from the error dict. */
  function EligibleKey(e: Eligibility): Option<bool> {
    if e.CdpNotLoaded? then None else Some(e.Eligible?)
  }

  /** The eligibility check over the loaded store: an empty store is an error;
      otherwise the first record matching the stripped, lower-cased last name
      and contact alone decides, eligible exactly when one of its bookings is
      flagged, and the criteria report both flags. */
  function EligibilitySpec(users: seq<Profile>, lastName: string, emailOrPhone: string): (r: Eligibility)
    ensures r.CdpNotLoaded? <==> users == []
    ensures r.NotFound? <==>
              users != [] && forall j :: 0 <= j < |users| ==> !Matches(users[j], Norm(lastName), Norm(emailOrPhone))
    ensures r.Eligible? ==> r.isHighspender || r.isStudent
    ensures (r.Eligible? || r.NotEligible?) ==>
              exists i :: 0 <= i < |users| && Matches(users[i], Norm(lastName), Norm(emailOrPhone))
                          && (forall j :: 0 <= j < i ==> !Matches(users[j], Norm(lastName), Norm(emailOrPhone)))
                          && (r.Eligible? <==> AnyHighSpender(BookingsOf(users[i])) || AnyStudent(BookingsOf(users[i])))
                          && (r.Eligible? ==>
                                && r.isHighspender == AnyHighSpender(BookingsOf(users[i]))
                                && r.isStudent == AnyStudent(BookingsOf(users[i]))
                                && r.userInfo == IdentityOf(InfoOf(users[i])))
  {
    if users == [] then CdpNotLoaded
    else match FirstVerdict(users, Norm(lastName), Norm(emailOrPhone))
         case NoMatch => NotFound
         case Decided(p, high, student) =>
           if high || student then Eligible(IdentityOf(InfoOf(p)), high, student) else NotEligible
  }

  /** The dicts `find_user_profile` returns. */
  datatype ProfileResult =
    | ProfileError              // status "error"
    | ProfileNotFound           // status "not_found"
    | ProfileFound(data: seq<Match>) // status "success"

  /** The profile lookup over the loaded store: an empty store is an error;
      otherwise every matching record, in store order. */
  function ProfileSpec(users: seq<Profile>, lastName: string, emailOrPhone: string): (r: ProfileResult)
    ensures r.ProfileError? <==> users == []
    ensures r.ProfileNotFound? <==>
              users != [] && forall j :: 0 <= j < |users| ==> !Matches(users[j], Norm(lastName), Norm(emailOrPhone))
    ensures r.ProfileFound? ==>
              && r.data != []
              && |r.data| <= |users|
              && forall m :: m in r.data <==>
                   exists i :: 0 <= i < |users| && Matches(users[i], Norm(lastName), Norm(emailOrPhone))
                               && m == ToMatch(users[i])
  {
    if users == [] then ProfileError
    else
      var ms := MatchesOf(users, Norm(lastName), Norm(emailOrPhone));
      MatchesOfExact(users, Norm(lastName), Norm(emailOrPhone));
      MatchesOfFirst(users, Norm(lastName), Norm(emailOrPhone));
      if ms == [] then ProfileNotFound else ProfileFound(ms)
  }

  /** The result of `filter_available_seats`. */
  datatype SeatResult = NoSeatData | FilteredSeats(result: SeatDoc)

  /** `if not seat_data: error`, else the structure-preserving filter. */
  function SeatResultOf(seatData: Option<SeatDoc>): (r: SeatResult)
    ensures r.NoSeatData? <==> seatData.None? || IsEmptyDict(seatData.value)
    ensures r.FilteredSeats? ==>
              && AllUnits(r.result) == FilterUnits(AllUnits(seatData.value))
              && Shape(r.result) == Shape(seatData.value)
              && r.result.rest == seatData.value.rest
  {
    if seatData.None? || IsEmptyDict(seatData.value) then NoSeatData
    else
      FilterDocUnits(seatData.value);
      FilterKeepsShape(seatData.value);
      FilteredSeats(FilterDoc(seatData.value))
  }

  /** `get_user_complete_info`. */
  datatype CompleteInfo = CompleteInfo(eligibility: Eligibility, profile: ProfileResult, timestamp: string)

  /** One entry of `batch_check_eligibility`: the input dict echoed with its result. */
  datatype BatchEntry = BatchEntry(input: map<string, string>, result: Eligibility)

  /** `user.get(key, "")`. */
  function FieldOr(user: map<string, string>, key: string): string {
    if key in user then user[key] else ""
  }

  /** The seat data after `_load_seat_data`: read once, when there is a file
      name; a missing file reads as `{}`. */
  function LoadedSeatData(seatData: Option<SeatDoc>, seatDataFile: Option<string>,
                          fileContents: Option<SeatDoc>): Option<SeatDoc>
  {
    if seatData.None? && TruthyText(seatDataFile) then Some(fileContents.GetOr(EmptyDoc)) else seatData
  }

  class UserServiceWrapper {
    const cdpFile: string
    var seatDataFile: Option<string>
    var usersData: seq<Profile>
    var seatData: Option<SeatDoc>

    /** `__init__`: the profile store is loaded at once, a missing file as `[]`;
        the seat data is not loaded yet. */
    constructor (cdpFile: string, seatDataFile: Option<string>, cdpContents: Option<seq<Profile>>)
      ensures this.cdpFile == cdpFile && this.seatDataFile == seatDataFile
      ensures usersData == cdpContents.GetOr([])
      ensures seatData.None?
    {
      this.cdpFile := cdpFile;
      this.seatDataFile := seatDataFile;
      usersData := cdpContents.GetOr([]);
      seatData := None;
    }

    /** `_load_seat_data`, given what the seat file holds. */
    method LoadSeatData(fileContents: Option<SeatDoc>)
      modifies this`seatData
      ensures seatData == LoadedSeatData(old(seatData), seatDataFile, fileContents)
    {
      if seatData.None? && TruthyText(seatDataFile) {
        if fileContents.Some? {
          seatData := fileContents;
        } else {
          seatData := Some(EmptyDoc);
        }
      }
    }

    /** The loop over one record's bookings: each flag is OR-ed over all of them. */
    method ScanBookings(bookings: seq<Booking>) returns (isHighspender: bool, isStudent: bool)
      ensures isHighspender == AnyHighSpender(bookings)
      ensures isStudent == AnyStudent(bookings)
    {
      isHighspender, isStudent := false, false;
      var k := 0;
      while k < |bookings|
        invariant 0 <= k <= |bookings|
        invariant isHighspender == AnyHighSpender(bookings[..k])
        invariant isStudent == AnyStudent(bookings[..k])
      {
        var b := bookings[k];
        var hHigh := Normalize.NormalizeBool(b.highSpenderHighFreq.GetOr(Bool(false)));
        var hLow := Normalize.NormalizeBool(b.highSpenderLowFreq.GetOr(Bool(false)));
        var student := Normalize.NormalizeStudent(b.student.GetOr(Int(0)));
        AnyStep(bookings, k);
        if hHigh || hLow {
          isHighspender := true;
        }
        if student {
          isStudent := true;
        }
        k := k + 1;
      }
      assert bookings[..k] == bookings;
    }

    /** `check_autorecovery_eligibility`: the scan stopping at the first fully
        matching record, OR-ing the flags over all its bookings. */
    method CheckAutorecoveryEligibility(lastName: string, emailOrPhone: string) returns (r: Eligibility)
      ensures r == EligibilitySpec(usersData, lastName, emailOrPhone)
    {
      if usersData == [] {
        return CdpNotLoaded;
      }
      var users := usersData;
      var ln := Norm(lastName);
      var contact := Norm(emailOrPhone);
      var i := 0;
      while i < |users|
        invariant 0 <= i <= |users|
        invariant FirstMatchFrom(users, ln, contact, i) == FirstMatch(users, ln, contact)
      {
        var info := InfoOf(users[i]);
        if LastNameKey(info) != ln {
          i := i + 1;
          continue;
        }
        if !(contact == PhoneKey(info) || contact == EmailKey(info)) {
          i := i + 1;
          continue;
        }
        var bookings := BookingsOf(users[i]);
        var isHighspender, isStudent := ScanBookings(bookings);
        if isHighspender || isStudent {
          return Eligible(IdentityOf(info), isHighspender, isStudent);
        }
        return NotEligible;
      }
      return NotFound;
    }

    /** `find_user_profile`: the scan collecting every matching record. */
    method FindUserProfile(lastName: string, emailOrPhone: string) returns (r: ProfileResult)
      ensures r == ProfileSpec(usersData, lastName, emailOrPhone)
    {
      if usersData == [] {
        return ProfileError;
      }
      var users := usersData;
      var ln := Norm(lastName);
      var contact := Norm(emailOrPhone);
      var matches: seq<Match> := [];
      var i := 0;
      while i < |users|
        invariant 0 <= i <= |users|
        invariant matches == MatchesOf(users[..i], ln, contact)
      {
        assert users[..i + 1] == users[..i] + [users[i]];
        MatchesOfSnoc(users[..i], users[i], ln, contact);
        var info := InfoOf(users[i]);
        if LastNameKey(info) != ln {
          i := i + 1;
          continue;
        }
        if !(contact == PhoneKey(info) || contact == EmailKey(info)) {
          i := i + 1;
          continue;
        }
        matches := matches + [Match(info, BookingsOf(users[i]))];
        i := i + 1;
      }
      assert users[..i] == users;
      if matches == [] {
        return ProfileNotFound;
      }
      return ProfileFound(matches);
    }

    /** `filter_available_seats`: the argument if given, else the lazily loaded
        seat file; no data or `{}` is an error, anything else is filtered
        keeping its structure. */
    method FilterAvailableSeats(seatDataArg: Option<SeatDoc>, fileContents: Option<SeatDoc>) returns (r: SeatResult)
      modifies this`seatData
      ensures seatDataArg.Some? ==> seatData == old(seatData) && r == SeatResultOf(seatDataArg)
      ensures seatDataArg.None? ==>
                seatData == LoadedSeatData(old(seatData), seatDataFile, fileContents)
                && r == SeatResultOf(seatData)
    {
      var data := seatDataArg;
      if data.None? {
        LoadSeatData(fileContents);
        data := seatData;
      }
      if data.None? || IsEmptyDict(data.value) {
        return NoSeatData;
      }
      var result := SeatAvailable.FilterAvailableSeatsKeepStructure(data.value);
      return FilteredSeats(result);
    }

    /** `get_user_complete_info`, stamped with the given time. */
    method GetUserCompleteInfo(lastName: string, emailOrPhone: string, timestamp: string) returns (r: CompleteInfo)
      ensures r == CompleteInfo(EligibilitySpec(usersData, lastName, emailOrPhone),
                                ProfileSpec(usersData, lastName, emailOrPhone), timestamp)
    {
      var eligibility := CheckAutorecoveryEligibility(lastName, emailOrPhone);
      var profile := FindUserProfile(lastName, emailOrPhone);
      return CompleteInfo(eligibility, profile, timestamp);
    }

    /** `batch_check_eligibility`: one entry per input, in order, missing keys read as "". */
    method BatchCheckEligibility(users: seq<map<string, string>>) returns (results: seq<BatchEntry>)
      ensures |results| == |users|
      ensures forall i :: 0 <= i < |users| ==>
                results[i] == BatchEntry(users[i], EligibilitySpec(usersData, FieldOr(users[i], "last_name"),
                                                                   FieldOr(users[i], "email_or_phone")))
    {
      results := [];
      var i := 0;
      while i < |users|
        invariant 0 <= i <= |users|
        invariant |results| == i
        invariant forall j :: 0 <= j < i ==>
                    results[j] == BatchEntry(users[j], EligibilitySpec(usersData, FieldOr(users[j], "last_name"),
                                                                       FieldOr(users[j], "email_or_phone")))
      {
        var lastName := FieldOr(users[i], "last_name");
        var emailOrPhone := FieldOr(users[i], "email_or_phone");
        var result := CheckAutorecoveryEligibility(lastName, emailOrPhone);
        results := results + [BatchEntry(users[i], result)];
        i := i + 1;
      }
    }
  }

  // ---------------------------------------------------------------------------
  // How the wrapper relates to the validator and the profile tool

  /** On a non-empty store the wrapper's check and the validator's check give
      the same verdict for every query, and name the same passenger. */
  lemma AgreesWithValidator(users: seq<Profile>, lastName: string, emailOrPhone: string)
    requires users != []
    ensures EligibilitySpec(users, lastName, emailOrPhone).Eligible? <==>
              Validator.Check(Some(users), lastName, emailOrPhone).EligibleUser?
    ensures EligibilitySpec(users, lastName, emailOrPhone).NotEligible? <==>
              Validator.Check(Some(users), lastName, emailOrPhone).NotEligible?
    ensures EligibilitySpec(users, lastName, emailOrPhone).NotFound? <==>
              Validator.Check(Some(users), lastName, emailOrPhone).InvalidUserInfo?
    ensures EligibilitySpec(users, lastName, emailOrPhone).Eligible? ==>
              EligibilitySpec(users, lastName, emailOrPhone).userInfo ==
              Validator.Check(Some(users), lastName, emailOrPhone).userInfo
  {
  }

  /** An empty store is where they part: an error here, `invalid_user_info` there. */
  lemma EmptyStoreDiffers(lastName: string, emailOrPhone: string)
    ensures EligibilitySpec([], lastName, emailOrPhone) == CdpNotLoaded
    ensures Validator.Check(Some([]), lastName, emailOrPhone) == Validator.InvalidUserInfo
  {
  }

  /** On a non-empty store the wrapper's lookup lists the same records as the profile tool. */
  lemma AgreesWithProfileTool(users: seq<Profile>, lastName: string, emailOrPhone: string)
    requires users != []
    ensures ProfileSpec(users, lastName, emailOrPhone).ProfileNotFound? <==>
              ProfileLookup.FindUsersSpec(Some(users), lastName, emailOrPhone).UsersNotFound?
    ensures ProfileSpec(users, lastName, emailOrPhone).ProfileFound? ==>
              ProfileLookup.FindUsersSpec(Some(users), lastName, emailOrPhone)
              == ProfileLookup.Users(ProfileSpec(users, lastName, emailOrPhone).data)
  {
  }

  /** The two halves of a complete-info answer agree: a verdict exactly when
      profiles are found, and an eligible verdict names the first profile listed. */
  lemma CompleteInfoConsistent(users: seq<Profile>, lastName: string, emailOrPhone: string)
    ensures EligibilitySpec(users, lastName, emailOrPhone).CdpNotLoaded? <==>
              ProfileSpec(users, lastName, emailOrPhone).ProfileError?
    ensures EligibilitySpec(users, lastName, emailOrPhone).NotFound? <==>
              ProfileSpec(users, lastName, emailOrPhone).ProfileNotFound?
    ensures EligibilitySpec(users, lastName, emailOrPhone).Eligible? ==>
              ProfileSpec(users, lastName, emailOrPhone).ProfileFound?
              && EligibilitySpec(users, lastName, emailOrPhone).userInfo ==
                 IdentityOf(ProfileSpec(users, lastName, emailOrPhone).data[0].userInfo)
  {
    if users != [] {
      VerdictIsFirstMatch(users, Norm(lastName), Norm(emailOrPhone));
    }
  }
}
