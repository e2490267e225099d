/**
 * The customer profile store shared by the matchers of `tools/common.py`,
 * `tools/validator.py` and `tools/profile.py`: its records, the
 * last-name-and-contact match predicate, the booking flags, and the
 * all-matches lookup.
 */
module Profiles {
  import opened Wrappers
  import opened PyValues
  import opened Normalize
  import opened Search

  /** `USR_MOBILE` is stored either as text or as a JSON number. */
  datatype Mobile = MobileText(text: string) | MobileNumber(n: int)

  /** `str(mobile)`. */
  function MobileStr(m: Mobile): string {
    match m
    case MobileText(t) => t
    case MobileNumber(n) => IntToStr(n)
  }

  /** A `user_info` object; every key may be absent. */
  datatype UserInfo = UserInfo(
    firstName: Option<string>,   // USR_FIRSTNAME
    lastName: Option<string>,    // USR_LASTNAME
    mobile: Option<Mobile>,      // USR_MOBILE
    email: Option<string>,       // USR_EMAIL
    guid: Option<string>)        // USR_GUID

  /** The `{}` that `user.get("user_info", {})` falls back to. */
  const EmptyInfo: UserInfo := UserInfo(None, None, None, None, None)

  /** One entry of `booking_details`, with its three raw flags. */
  datatype Booking = Booking(
    highSpenderHighFreq: Option<Value>,   // HIGHSPENDERHIGHFREQ
    highSpenderLowFreq: Option<Value>,    // HIGHSPENDERLOWFREQ
    student: Option<Value>)               // STUDENT

  /** A record of the profile store. */
  datatype Profile = Profile(userInfo: Option<UserInfo>, bookingDetails: Option<seq<Booking>>)

  function InfoOf(p: Profile): UserInfo {
    p.userInfo.GetOr(EmptyInfo)
  }

  function BookingsOf(p: Profile): seq<Booking> {
    p.bookingDetails.GetOr([])
  }

  /** The normalised last name, phone text and email of a record. */
  function LastNameKey(info: UserInfo): string {
    Norm(info.lastName.GetOr(""))
  }

  function PhoneKey(info: UserInfo): string {
    Norm(MobileStr(info.mobile.GetOr(MobileText(""))))
  }

  function EmailKey(info: UserInfo): string {
    Norm(info.email.GetOr(""))
  }

  /** A record matches normalised query texts when its last name equals the
      last name and the contact equals its phone text or its email. */
  predicate Matches(p: Profile, lastName: string, contact: string) {
    var info := InfoOf(p);
    LastNameKey(info) == lastName && (contact == PhoneKey(info) || contact == EmailKey(info))
  }

  /** Either high-spender flag of a booking is set (absent flags read as `False`). */
  predicate HighSpender(b: Booking) {
    NormalizeBool(b.highSpenderHighFreq.GetOr(Bool(false)))
    || NormalizeBool(b.highSpenderLowFreq.GetOr(Bool(false)))
  }

  /** The student flag of a booking is set (an absent flag reads as 0). */
  predicate Student(b: Booking) {
    NormalizeStudent(b.student.GetOr(Int(0)))
  }

  /** Some booking of the list is flagged high-spender. */
  predicate AnyHighSpender(bs: seq<Booking>) {
    exists k :: 0 <= k < |bs| && HighSpender(bs[k])
  }

  /** Some booking of the list is flagged student. */
  predicate AnyStudent(bs: seq<Booking>) {
    exists k :: 0 <= k < |bs| && Student(bs[k])
  }

  /** A booking that makes its profile eligible. */
  predicate Flagged(b: Booking) {
    HighSpender(b) || Student(b)
  }

  /** Adding a flagged booking anywhere makes a profile's bookings eligible,
      whatever the others say. */
  lemma {:induction false} FlaggedBookingSuffices(before: seq<Booking>, b: Booking, after: seq<Booking>)
    requires Flagged(b)
    ensures var bs := before + [b] + after;
            AnyHighSpender(bs) || AnyStudent(bs)
  {
    var bs := before + [b] + after;
    assert bs[|before|] == b;
  }

  /** Without a flagged booking neither flag is set. */
  lemma NoFlaggedBooking(bs: seq<Booking>)
    requires forall k :: 0 <= k < |bs| ==> !Flagged(bs[k])
    ensures !AnyHighSpender(bs) && !AnyStudent(bs)
  {
  }

  /** The identity fields echoed for an eligible passenger, absent ones as "". */
  datatype Identity = Identity(firstName: string, lastName: string, mobile: Mobile, email: string, guid: string)

  function IdentityOf(info: UserInfo): (r: Identity)
    ensures info.lastName.Some? ==> r.lastName == info.lastName.value
    ensures info.email.Some? ==> r.email == info.email.value
  {
    Identity(info.firstName.GetOr(""), info.lastName.GetOr(""), info.mobile.GetOr(MobileText("")),
             info.email.GetOr(""), info.guid.GetOr(""))
  }

  /** One entry of an all-matches lookup: the record's `user_info` and its bookings. */
  datatype Match = Match(userInfo: UserInfo, bookingDetails: seq<Booking>)

  function ToMatch(p: Profile): Match {
    Match(InfoOf(p), BookingsOf(p))
  }

  /** The condition the scans over the store test. */
  function MatchesQuery(lastName: string, contact: string): Profile -> bool {
    p => Matches(p, lastName, contact)
  }

  /** The entries of every matching record, in store order. */
  function MatchesOf(users: seq<Profile>, lastName: string, contact: string): seq<Match> {
    Select(users, MatchesQuery(lastName, contact), ToMatch)
  }

  /** One more record at the end adds its entry, if it matches, at the end. */
  lemma MatchesOfSnoc(xs: seq<Profile>, x: Profile, lastName: string, contact: string)
    ensures MatchesOf(xs + [x], lastName, contact) ==
            MatchesOf(xs, lastName, contact) + (if Matches(x, lastName, contact) then [ToMatch(x)] else [])
  {
    SelectSnoc(xs, x, MatchesQuery(lastName, contact), ToMatch);
  }

  /** The lookup distributes over a split of the store, so it keeps store order. */
  lemma MatchesOfAppend(a: seq<Profile>, b: seq<Profile>, lastName: string, contact: string)
    ensures MatchesOf(a + b, lastName, contact) == MatchesOf(a, lastName, contact) + MatchesOf(b, lastName, contact)
  {
    SelectAppend(a, b, MatchesQuery(lastName, contact), ToMatch);
  }

  /** Every entry comes from a matching record, every matching record gives an
      entry, and there are at most as many entries as records. */
  lemma MatchesOfExact(users: seq<Profile>, lastName: string, contact: string)
    ensures |MatchesOf(users, lastName, contact)| <= |users|
    ensures forall m :: m in MatchesOf(users, lastName, contact) <==>
              exists i :: 0 <= i < |users| && Matches(users[i], lastName, contact) && m == ToMatch(users[i])
  {
    SelectExact(users, MatchesQuery(lastName, contact), ToMatch);
  }

  /** The index of the first matching record at or after `from`, if any. */
  function FirstMatchFrom(users: seq<Profile>, lastName: string, contact: string, from: nat): (r: Option<nat>)
    requires from <= |users|
    ensures r.Some? ==> from <= r.value < |users| && Matches(users[r.value], lastName, contact)
                        && forall j :: from <= j < r.value ==> !Matches(users[j], lastName, contact)
    ensures r.None? ==> forall j :: from <= j < |users| ==> !Matches(users[j], lastName, contact)
  {
    FirstFrom(users, MatchesQuery(lastName, contact), from)
  }

  /** The index of the first matching record, if any. */
  function FirstMatch(users: seq<Profile>, lastName: string, contact: string): (r: Option<nat>)
    ensures r.Some? ==> r.value < |users| && Matches(users[r.value], lastName, contact)
                        && forall j :: 0 <= j < r.value ==> !Matches(users[j], lastName, contact)
    ensures r.None? ==> forall j :: 0 <= j < |users| ==> !Matches(users[j], lastName, contact)
  {
    FirstMatchFrom(users, lastName, contact, 0)
  }

  /** No matching record, no entry. */
  lemma MatchesOfNone(users: seq<Profile>, lastName: string, contact: string)
    requires forall j :: 0 <= j < |users| ==> !Matches(users[j], lastName, contact)
    ensures MatchesOf(users, lastName, contact) == []
  {
    SelectNone(users, MatchesQuery(lastName, contact), ToMatch);
  }

  /** The lookup is empty exactly when no record matches, and otherwise starts
      with the first matching record. */
  lemma MatchesOfFirst(users: seq<Profile>, lastName: string, contact: string)
    ensures FirstMatch(users, lastName, contact).None? <==> MatchesOf(users, lastName, contact) == []
    ensures FirstMatch(users, lastName, contact).Some? ==>
              MatchesOf(users, lastName, contact)[0] == ToMatch(users[FirstMatch(users, lastName, contact).value])
  {
    var f := FirstMatch(users, lastName, contact);
    if f.None? {
      MatchesOfNone(users, lastName, contact);
    } else {
      var i := f.value;
      var pre, rest := users[..i], users[i..];
      assert users == pre + rest;
      assert rest == [users[i]] + rest[1..];
      assert forall j :: 0 <= j < |pre| ==> pre[j] == users[j];
      MatchesOfNone(pre, lastName, contact);
      MatchesOfAppend(pre, rest, lastName, contact);
      MatchesOfAppend([users[i]], rest[1..], lastName, contact);
      assert [] + [users[i]] == [users[i]];
      MatchesOfSnoc([], users[i], lastName, contact);
    }
  }

  /** Any matching record with no matching record before it is the first match. */
  lemma FirstMatchAt(users: seq<Profile>, lastName: string, contact: string, i: nat)
    requires i < |users| && Matches(users[i], lastName, contact)
    requires forall j :: 0 <= j < i ==> !Matches(users[j], lastName, contact)
    ensures FirstMatch(users, lastName, contact) == Some(i)
  {
    FirstFromAt(users, MatchesQuery(lastName, contact), 0, i);
  }

  /** What the first fully matching record says: both its accumulated flags. */
  datatype Verdict = NoMatch | Decided(record: Profile, isHighspender: bool, isStudent: bool)

  /** The verdict of a scan that stops at the first fully matching record:
      each flag is the OR over all of that record's bookings. */
  function FirstVerdict(users: seq<Profile>, lastName: string, contact: string): (v: Verdict)
    ensures v.NoMatch? <==> forall j :: 0 <= j < |users| ==> !Matches(users[j], lastName, contact)
    ensures v.Decided? ==>
              exists i :: 0 <= i < |users| && users[i] == v.record && Matches(users[i], lastName, contact)
                          && forall j :: 0 <= j < i ==> !Matches(users[j], lastName, contact)
  {
    match FirstMatch(users, lastName, contact)
    case None => NoMatch
    case Some(i) =>
      var bs := BookingsOf(users[i]);
      Decided(users[i], AnyHighSpender(bs), AnyStudent(bs))
  }

  /** The first entry of the all-matches lookup is the record that decides the verdict. */
  lemma VerdictIsFirstMatch(users: seq<Profile>, lastName: string, contact: string)
    ensures FirstVerdict(users, lastName, contact).NoMatch? <==> MatchesOf(users, lastName, contact) == []
    ensures FirstVerdict(users, lastName, contact).Decided? ==>
              MatchesOf(users, lastName, contact)[0] == ToMatch(FirstVerdict(users, lastName, contact).record)
  {
    MatchesOfFirst(users, lastName, contact);
  }

  /** One more booking extends each accumulated flag by OR. */
  lemma AnyStep(bs: seq<Booking>, k: nat)
    requires k < |bs|
    ensures AnyHighSpender(bs[..k + 1]) == (AnyHighSpender(bs[..k]) || HighSpender(bs[k]))
    ensures AnyStudent(bs[..k + 1]) == (AnyStudent(bs[..k]) || Student(bs[k]))
  {
    var p, q := bs[..k], bs[..k + 1];
    assert q[k] == bs[k];
    assert forall j :: 0 <= j < k ==> q[j] == p[j];
  }
}
