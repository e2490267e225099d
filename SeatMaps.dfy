/**
 * The seat-map response tree: `data.seatMaps[].seatMap.decks{}.compartments{}.units[]`.
 * Dicts keyed by deck and compartment name are sequences of (key, value)
 * pairs in insertion order; `rest` holds the keys the code never reads,
 * which copying keeps verbatim.
 */
module SeatMaps {
  import opened Wrappers
  import opened PyValues

  datatype Property = Property(code: Option<string>)

  /** One seat unit. */
  datatype Unit = Unit(
    designator: Option<string>,
    travelClassCode: Option<string>,
    assignable: Option<Value>,
    availability: Option<int>,
    properties: Option<seq<Property>>,
    rest: seq<(string, Value)>)

  datatype Compartment = Compartment(units: Option<seq<Unit>>, rest: seq<(string, Value)>)
  datatype Deck = Deck(compartments: Option<seq<(string, Compartment)>>, rest: seq<(string, Value)>)
  datatype SeatMap = SeatMap(decks: Option<seq<(string, Deck)>>, rest: seq<(string, Value)>)
  datatype SeatMapEntry = SeatMapEntry(seatMap: Option<SeatMap>, rest: seq<(string, Value)>)
  datatype SeatData = SeatData(seatMaps: Option<seq<SeatMapEntry>>, rest: seq<(string, Value)>)

  /** The whole response; `rest` is every top-level key other than "data". */
  datatype SeatDoc = SeatDoc(data: Option<SeatData>, rest: seq<(string, Value)>)

  /** The `{}` a missing seat file is replaced by. */
  const EmptyDoc: SeatDoc := SeatDoc(None, [])

  /** `not doc` for a dict: it has no keys at all. */
  predicate IsEmptyDict(doc: SeatDoc) {
    doc.data.None? && doc.rest == []
  }

  /** `seat.get("availability", 0)`. */
  function Availability(u: Unit): int {
    u.availability.GetOr(0)
  }

  /** `seat.get("assignable") is True and seat.get("availability", 0) > 0`. */
  function Bookable(u: Unit): (bookable: bool)
    ensures bookable <==> u.assignable == Some(Bool(true)) && u.availability.Some? && u.availability.value > 0
  {
    IsTrue(u.assignable) && Availability(u) > 0
  }

  /** The `.get(key, default)` steps of the walk. */
  function UnitsOf(c: Compartment): seq<Unit> {
    c.units.GetOr([])
  }

  function CompartmentsOf(d: Deck): seq<(string, Compartment)> {
    d.compartments.GetOr([])
  }

  function DecksOf(e: SeatMapEntry): seq<(string, Deck)> {
    if e.seatMap.None? then [] else e.seatMap.value.decks.GetOr([])
  }

  /** `doc.get("data", {}).get("seatMaps", [])`. */
  function SeatMapsOf(doc: SeatDoc): seq<SeatMapEntry> {
    if doc.data.None? then [] else doc.data.value.seatMaps.GetOr([])
  }

  /** The units of the walk in visiting order, level by level. */
  function CompartmentUnits(cs: seq<(string, Compartment)>): seq<Unit>
    decreases |cs|
  {
    if cs == [] then [] else CompartmentUnits(cs[..|cs| - 1]) + UnitsOf(cs[|cs| - 1].1)
  }

  function DeckUnits(ds: seq<(string, Deck)>): seq<Unit>
    decreases |ds|
  {
    if ds == [] then [] else DeckUnits(ds[..|ds| - 1]) + CompartmentUnits(CompartmentsOf(ds[|ds| - 1].1))
  }

  function EntryUnits(es: seq<SeatMapEntry>): seq<Unit>
    decreases |es|
  {
    if es == [] then [] else EntryUnits(es[..|es| - 1]) + DeckUnits(DecksOf(es[|es| - 1]))
  }

  /** Every unit of the response, in the order the nested loops visit them. */
  function AllUnits(doc: SeatDoc): seq<Unit> {
    EntryUnits(SeatMapsOf(doc))
  }

  // ---------------------------------------------------------------------------
  // The structure-preserving filter (deep copy, then each `units` list replaced
  // by its bookable subsequence).

  /** `[seat for seat in units if bookable]`. */
  function FilterUnits(us: seq<Unit>): seq<Unit>
    decreases |us|
  {
    if us == [] then []
    else FilterUnits(us[..|us| - 1]) + (if Bookable(us[|us| - 1]) then [us[|us| - 1]] else [])
  }

  function FilterCompartment(c: Compartment): Compartment {
    c.(units := Some(FilterUnits(UnitsOf(c))))
  }

  function FilterCompartments(cs: seq<(string, Compartment)>): (r: seq<(string, Compartment)>)
    ensures |r| == |cs|
  {
    seq(|cs|, i requires 0 <= i < |cs| => (cs[i].0, FilterCompartment(cs[i].1)))
  }

  /** A deck without "compartments" is left alone: the walk reads a fresh `{}`. */
  function FilterDeck(d: Deck): Deck {
    if d.compartments.None? then d else d.(compartments := Some(FilterCompartments(d.compartments.value)))
  }

  function FilterDecks(ds: seq<(string, Deck)>): (r: seq<(string, Deck)>)
    ensures |r| == |ds|
  {
    seq(|ds|, i requires 0 <= i < |ds| => (ds[i].0, FilterDeck(ds[i].1)))
  }

  function FilterEntry(e: SeatMapEntry): SeatMapEntry {
    if e.seatMap.None? || e.seatMap.value.decks.None? then e
    else e.(seatMap := Some(e.seatMap.value.(decks := Some(FilterDecks(e.seatMap.value.decks.value)))))
  }

  function FilterEntries(es: seq<SeatMapEntry>): (r: seq<SeatMapEntry>)
    ensures |r| == |es|
  {
    seq(|es|, i requires 0 <= i < |es| => FilterEntry(es[i]))
  }

  /** The filtered copy of a whole response. */
  function FilterDoc(doc: SeatDoc): SeatDoc {
    if doc.data.None? || doc.data.value.seatMaps.None? then doc
    else doc.(data := Some(doc.data.value.(seatMaps := Some(FilterEntries(doc.data.value.seatMaps.value)))))
  }

  // ---------------------------------------------------------------------------
  // Properties of the filter.

  /** The kept units are exactly the bookable ones, in their original order. */
  lemma {:induction false} FilterUnitsExact(us: seq<Unit>)
    ensures |FilterUnits(us)| <= |us|
    ensures forall u :: u in FilterUnits(us) <==> u in us && Bookable(u)
    decreases |us|
  {
    if us != [] {
      var p := us[..|us| - 1];
      FilterUnitsExact(p);
      assert us == p + [us[|us| - 1]];
    }
  }

  /** Filtering distributes over concatenation: it keeps the relative order. */
  lemma {:induction false} FilterUnitsAppend(a: seq<Unit>, b: seq<Unit>)
    ensures FilterUnits(a + b) == FilterUnits(a) + FilterUnits(b)
    decreases |b|
  {
    if b == [] {
      assert a + b == a;
    } else {
      var n := |b| - 1;
      var ab := a + b;
      assert ab[..|ab| - 1] == a + b[..n];
      assert ab[|ab| - 1] == b[n];
      FilterUnitsAppend(a, b[..n]);
    }
  }

  /** A filtered list filters to itself. */
  lemma {:induction false} FilterUnitsIdempotent(us: seq<Unit>)
    ensures FilterUnits(FilterUnits(us)) == FilterUnits(us)
    decreases |us|
  {
    if us != [] {
      var p := us[..|us| - 1];
      var last := us[|us| - 1];
      FilterUnitsIdempotent(p);
      var tail := if Bookable(last) then [last] else [];
      FilterUnitsAppend(FilterUnits(p), tail);
      assert [last][..0] == [];
      assert FilterUnits(tail) == tail;
    }
  }

  /** One compartment after filtering: its other keys are kept, its `units`
      are its bookable units, and a compartment without `units` gains an
      empty list. */
  lemma FilterCompartmentSpec(c: Compartment)
    ensures FilterCompartment(c).rest == c.rest
    ensures FilterCompartment(c).units.Some?
    ensures forall u :: u in UnitsOf(FilterCompartment(c)) <==> u in UnitsOf(c) && Bookable(u)
    ensures c.units.None? ==> FilterCompartment(c).units == Some([])
  {
    FilterUnitsExact(UnitsOf(c));
  }

  /** Filtering the filtered response changes nothing. */
  lemma FilterDocIdempotent(doc: SeatDoc)
    ensures FilterDoc(FilterDoc(doc)) == FilterDoc(doc)
  {
    if doc.data.Some? && doc.data.value.seatMaps.Some? {
      var es := doc.data.value.seatMaps.value;
      var fs := FilterEntries(es);
      forall i | 0 <= i < |es| ensures FilterEntry(fs[i]) == fs[i] {
        var e := es[i];
        if e.seatMap.Some? && e.seatMap.value.decks.Some? {
          var ds := e.seatMap.value.decks.value;
          var gs := FilterDecks(ds);
          forall j | 0 <= j < |ds| ensures FilterDeck(gs[j].1) == gs[j].1 {
            var d := ds[j].1;
            if d.compartments.Some? {
              var cs := d.compartments.value;
              var hs := FilterCompartments(cs);
              forall k | 0 <= k < |cs| ensures FilterCompartment(hs[k].1) == hs[k].1 {
                FilterUnitsIdempotent(UnitsOf(cs[k].1));
              }
              assert FilterCompartments(hs) == hs;
            }
          }
          assert FilterDecks(gs) == gs;
        }
      }
      assert FilterEntries(fs) == fs;
    }
  }

  /** A response without "data" or without "seatMaps" comes back as it was. */
  lemma FilterNoData(doc: SeatDoc)
    requires doc.data.None? || doc.data.value.seatMaps.None?
    ensures FilterDoc(doc) == doc
  {
  }

  /** The response with every `units` list erased: what the filter must not touch. */
  function Shape(doc: SeatDoc): SeatDoc {
    if doc.data.None? || doc.data.value.seatMaps.None? then doc
    else doc.(data := Some(doc.data.value.(seatMaps := Some(ShapeEntries(doc.data.value.seatMaps.value)))))
  }

  function ShapeEntries(es: seq<SeatMapEntry>): seq<SeatMapEntry> {
    seq(|es|, i requires 0 <= i < |es| =>
      var e := es[i];
      if e.seatMap.None? || e.seatMap.value.decks.None? then e
      else e.(seatMap := Some(e.seatMap.value.(decks := Some(ShapeDecks(e.seatMap.value.decks.value))))))
  }

  function ShapeDecks(ds: seq<(string, Deck)>): seq<(string, Deck)> {
    seq(|ds|, i requires 0 <= i < |ds| =>
      var d := ds[i].1;
      (ds[i].0, if d.compartments.None? then d else d.(compartments := Some(ShapeCompartments(d.compartments.value)))))
  }

  function ShapeCompartments(cs: seq<(string, Compartment)>): seq<(string, Compartment)> {
    seq(|cs|, i requires 0 <= i < |cs| => (cs[i].0, cs[i].1.(units := None)))
  }

  /** Outside the `units` lists the filtered response is the input itself: the
      same keys, the same seat maps, decks and compartments in the same order. */
  lemma FilterKeepsShape(doc: SeatDoc)
    ensures Shape(FilterDoc(doc)) == Shape(doc)
  {
    if doc.data.Some? && doc.data.value.seatMaps.Some? {
      var es := doc.data.value.seatMaps.value;
      var fs := FilterEntries(es);
      forall i | 0 <= i < |es| ensures ShapeEntries(fs)[i] == ShapeEntries(es)[i] {
        var e := es[i];
        if e.seatMap.Some? && e.seatMap.value.decks.Some? {
          var ds := e.seatMap.value.decks.value;
          var gs := FilterDecks(ds);
          forall j | 0 <= j < |ds| ensures ShapeDecks(gs)[j] == ShapeDecks(ds)[j] {
            var d := ds[j].1;
            if d.compartments.Some? {
              var cs := d.compartments.value;
              assert ShapeCompartments(FilterCompartments(cs)) == ShapeCompartments(cs);
            }
          }
          assert ShapeDecks(gs) == ShapeDecks(ds);
        }
      }
      assert ShapeEntries(fs) == ShapeEntries(es);
    }
  }

  lemma {:induction false} FilterCompartmentsUnits(cs: seq<(string, Compartment)>)
    ensures CompartmentUnits(FilterCompartments(cs)) == FilterUnits(CompartmentUnits(cs))
    decreases |cs|
  {
    if cs != [] {
      var n := |cs| - 1;
      assert FilterCompartments(cs)[..n] == FilterCompartments(cs[..n]);
      FilterCompartmentsUnits(cs[..n]);
      FilterUnitsAppend(CompartmentUnits(cs[..n]), UnitsOf(cs[n].1));
    }
  }

  lemma {:induction false} FilterDecksUnits(ds: seq<(string, Deck)>)
    ensures DeckUnits(FilterDecks(ds)) == FilterUnits(DeckUnits(ds))
    decreases |ds|
  {
    if ds != [] {
      var n := |ds| - 1;
      assert FilterDecks(ds)[..n] == FilterDecks(ds[..n]);
      FilterDecksUnits(ds[..n]);
      FilterUnitsAppend(DeckUnits(ds[..n]), CompartmentUnits(CompartmentsOf(ds[n].1)));
      if ds[n].1.compartments.Some? {
        FilterCompartmentsUnits(ds[n].1.compartments.value);
      }
    }
  }

  lemma {:induction false} FilterEntriesUnits(es: seq<SeatMapEntry>)
    ensures EntryUnits(FilterEntries(es)) == FilterUnits(EntryUnits(es))
    decreases |es|
  {
    if es != [] {
      var n := |es| - 1;
      assert FilterEntries(es)[..n] == FilterEntries(es[..n]);
      FilterEntriesUnits(es[..n]);
      FilterUnitsAppend(EntryUnits(es[..n]), DeckUnits(DecksOf(es[n])));
      if es[n].seatMap.Some? && es[n].seatMap.value.decks.Some? {
        FilterDecksUnits(es[n].seatMap.value.decks.value);
      }
    }
  }

  /** Walking the filtered response visits exactly the bookable units of the
      original, in the original order. */
  lemma FilterDocUnits(doc: SeatDoc)
    ensures AllUnits(FilterDoc(doc)) == FilterUnits(AllUnits(doc))
  {
    if doc.data.Some? && doc.data.value.seatMaps.Some? {
      FilterEntriesUnits(doc.data.value.seatMaps.value);
    }
  }
}
