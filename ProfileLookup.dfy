/**
 * `tools/profile.py`: every profile record matching a last name and an email
 * or phone, with its booking history.  The profile store read from a file is a
 * parameter; `None` stands for the file not being found.
 */
module ProfileLookup {
  import opened Wrappers
  import opened PyValues
  import opened Profiles

  /** What `find_users` returns. */
  datatype FindResult =
    | LookupFileError          // {"status": "error"}
    | UsersNotFound            // {"status": "not_found"}
    | Users(matches: seq<Match>) // the list of matches itself

  /** `find_users` on a given store: both query texts are stripped and
      lower-cased, and the result lists exactly the matching records, in store
      order, none lost and none added. */
  function FindUsersSpec(store: Option<seq<Profile>>, lastName: string, emailOrPhone: string): (r: FindResult)
    ensures r.LookupFileError? <==> store.None?
    ensures r.UsersNotFound? <==>
              store.Some? && forall j :: 0 <= j < |store.value| ==>
                               !Matches(store.value[j], Norm(lastName), Norm(emailOrPhone))
    ensures r.Users? ==>
              && r.matches != []
              && |r.matches| <= |store.value|
              && forall m :: m in r.matches <==>
                   exists i :: 0 <= i < |store.value| && Matches(store.value[i], Norm(lastName), Norm(emailOrPhone))
                               && m == ToMatch(store.value[i])
  {
    if store.None? then LookupFileError
    else
      var ms := MatchesOf(store.value, Norm(lastName), Norm(emailOrPhone));
      MatchesOfExact(store.value, Norm(lastName), Norm(emailOrPhone));
      MatchesOfFirst(store.value, Norm(lastName), Norm(emailOrPhone));
      if ms == [] then UsersNotFound else Users(ms)
  }

  /** The scan appending each matching record's entry. */
  method FindUsers(store: Option<seq<Profile>>, lastName: string, emailOrPhone: string) returns (r: FindResult)
    ensures r == FindUsersSpec(store, lastName, emailOrPhone)
  {
    if store.None? {
      return LookupFileError;
    }
    var users := store.value;
    var ln := Norm(lastName);
    var contact := Norm(emailOrPhone);
    var matches: seq<Match> := [];
    var i := 0;
    while i < |users|
      invariant 0 <= i <= |users|
      invariant matches == MatchesOf(users[..i], ln, contact)
    {
      assert users[..i + 1][..i] == users[..i];
      var info := InfoOf(users[i]);
      if LastNameKey(info) != ln {
        i := i + 1;
        continue;
      }
      if !(contact == PhoneKey(info) || contact == EmailKey(info)) {
        i := i + 1;
        continue;
      }
      matches := matches + [Match(info, BookingsOf(users[i]))];
      i := i + 1;
    }
    assert users[..i] == users;
    if matches == [] {
      return UsersNotFound;
    }
    return Users(matches);
  }
}
