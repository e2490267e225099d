/**
 * `tools/seat_available.py`: keep the structure of a seat-map response and
 * replace each compartment's `units` by its assignable and available seats.
 */
module SeatAvailable {
  import opened Wrappers
  import opened SeatMaps

  /** `filter_available_seats_keep_structure`.  The deep copy is the value
      `seatData` itself (datatype values share no mutable state); the copy is
      then overwritten compartment by compartment, each level updated in place
      at its own index. */
  method FilterAvailableSeatsKeepStructure(seatData: SeatDoc) returns (result: SeatDoc)
    ensures result == FilterDoc(seatData)
  {
    result := seatData;
    if result.data.None? || result.data.value.seatMaps.None? {
      return;
    }
    var seatMaps := result.data.value.seatMaps.value;
    ghost var original := seatMaps;
    var i := 0;
    while i < |seatMaps|
      invariant 0 <= i <= |seatMaps| == |original|
      invariant forall m :: 0 <= m < i ==> seatMaps[m] == FilterEntry(original[m])
      invariant forall m :: i <= m < |seatMaps| ==> seatMaps[m] == original[m]
    {
      var entry := seatMaps[i];
      if entry.seatMap.Some? && entry.seatMap.value.decks.Some? {
        var decks := entry.seatMap.value.decks.value;
        ghost var originalDecks := decks;
        var j := 0;
        while j < |decks|
          invariant 0 <= j <= |decks| == |originalDecks|
          invariant forall m :: 0 <= m < j ==> decks[m] == (originalDecks[m].0, FilterDeck(originalDecks[m].1))
          invariant forall m :: j <= m < |decks| ==> decks[m] == originalDecks[m]
        {
          var deck := decks[j].1;
          if deck.compartments.Some? {
            var cabins := deck.compartments.value;
            ghost var originalCabins := cabins;
            var k := 0;
            while k < |cabins|
              invariant 0 <= k <= |cabins| == |originalCabins|
              invariant forall m :: 0 <= m < k ==>
                          cabins[m] == (originalCabins[m].0, FilterCompartment(originalCabins[m].1))
              invariant forall m :: k <= m < |cabins| ==> cabins[m] == originalCabins[m]
            {
              var cabin := cabins[k].1;
              var units := UnitsOf(cabin);
              cabins := cabins[k := (cabins[k].0, cabin.(units := Some(FilterUnits(units))))];
              k := k + 1;
            }
            assert cabins == FilterCompartments(originalCabins);
            decks := decks[j := (decks[j].0, deck.(compartments := Some(cabins)))];
          }
          j := j + 1;
        }
        assert decks == FilterDecks(originalDecks);
        seatMaps := seatMaps[i := entry.(seatMap := Some(entry.seatMap.value.(decks := Some(decks))))];
      }
      i := i + 1;
    }
    assert seatMaps == FilterEntries(original);
    result := result.(data := Some(result.data.value.(seatMaps := Some(seatMaps))));
  }
}
