/** The search panel's state: the location fields, the radius slider, the
    category selection, the two exclusive modes and the amenity toggles,
    with the handlers that change them. */
module FilterState {
  import Catalog
  import Seqs

  /** A latitude or longitude input: empty, or a number held as its
      JavaScript rendering (`${n}`). */
  datatype CoordField = Blank | Entered(text: string)

  /** Texts that stand for a falsy number: 0, -0 and NaN render as "0" and
      "NaN"; "-0" and the empty text, which no number renders as, are read
      as the zero they would parse to. */
  predicate FalsyText(t: string)
  {
    t == "" || t == "0" || t == "-0" || t == "NaN"
  }

  /** JavaScript truthiness of the field: the empty input and the falsy
      numbers are missing, so an exact zero coordinate counts as missing. */
  predicate Present(c: CoordField)
  {
    c.Entered? && !FalsyText(c.text)
  }

  /** The twelve amenity checkboxes. */
  datatype Amenity =
    | Open24h | Toilet | CreditCard | Parking | Wheelchair | OutdoorSeating
    | HotFood | Lottery | OpenNow | Cigarettes | Atm | Microwave

  datatype Filters = Filters(
    lat: CoordField,
    lon: CoordField,
    radius: nat,
    selectedTypes: seq<string>,
    onlyVending: bool,
    onlyChains: bool,
    amenities: set<Amenity>)

  /** The panel as first rendered: convenience stores selected, 2 km radius,
      no location, no mode, no amenity. */
  const Initial: Filters := Filters(Blank, Blank, 2000, ["shop=convenience"], false, false, {})

  /** The radius slider's values: 500 m to 10 km in 500 m steps. */
  predicate SliderValue(meters: nat)
  {
    500 <= meters <= 10000 && meters % 500 == 0
  }

  /** A query may be compiled: a location and at least one type or mode. */
  predicate Searchable(f: Filters)
  {
    Present(f.lat) && Present(f.lon) && (|f.selectedTypes| > 0 || f.onlyVending || f.onlyChains)
  }

  // ---------------------------------------------------------------------------
  // Toggle handlers
  // ---------------------------------------------------------------------------

  /** `types.filter(q => q !== x)`. */
  function Without(types: seq<string>, x: string): (r: seq<string>)
    ensures x !in r
    ensures multiset(r) == multiset(types)[x := 0]
    ensures Seqs.IsSubsequence(r, types)
  {
    if types == [] then []
    else if types[0] == x then
      assert types == [types[0]] + types[1..];
      assert multiset(types) == multiset{x} + multiset(types[1..]);
      Without(types[1..], x)
    else
      var r := [types[0]] + Without(types[1..], x);
      assert types == [types[0]] + types[1..];
      assert r[1..] == Without(types[1..], x);
      r
  }

  /** A category checkbox: a selected tag is removed, an unselected one is
      appended after the others. */
  function ToggleType(types: seq<string>, q: string): (r: seq<string>)
    ensures q in types ==> q !in r && forall x :: x != q ==> multiset(r)[x] == multiset(types)[x]
    ensures q in types ==> Seqs.IsSubsequence(r, types)
    ensures q !in types ==> r == types + [q]
  {
    if q in types then Without(types, q) else types + [q]
  }

  /** The vending-only checkbox. Turning it on clears the category selection
      and chain-only mode; turning it off changes nothing else. */
  function ToggleVending(f: Filters): (r: Filters)
    ensures r.onlyVending == !f.onlyVending
    ensures !f.onlyVending ==> r.selectedTypes == [] && !r.onlyChains
    ensures f.onlyVending ==> r.selectedTypes == f.selectedTypes && r.onlyChains == f.onlyChains
    ensures r.lat == f.lat && r.lon == f.lon && r.radius == f.radius && r.amenities == f.amenities
  {
    if f.onlyVending then f.(onlyVending := false)
    else f.(onlyVending := true, selectedTypes := [], onlyChains := false)
  }

  /** The chain-only checkbox, the mirror image of `ToggleVending`. */
  function ToggleChains(f: Filters): (r: Filters)
    ensures r.onlyChains == !f.onlyChains
    ensures !f.onlyChains ==> r.selectedTypes == [] && !r.onlyVending
    ensures f.onlyChains ==> r.selectedTypes == f.selectedTypes && r.onlyVending == f.onlyVending
    ensures r.lat == f.lat && r.lon == f.lon && r.radius == f.radius && r.amenities == f.amenities
  {
    if f.onlyChains then f.(onlyChains := false)
    else f.(onlyChains := true, selectedTypes := [], onlyVending := false)
  }

  /** Toggling a category that was not selected, twice, gives back the
      selection it started from. */
  lemma {:induction false} ToggleTypeTwice(types: seq<string>, q: string)
    requires q !in types
    ensures ToggleType(ToggleType(types, q), q) == types
  {
    WithoutAppendSelf(types, q);
  }

  lemma {:induction false} WithoutAppendSelf(types: seq<string>, q: string)
    requires q !in types
    ensures Without(types + [q], q) == types
  {
    if types == [] {
      assert types + [q] == [q];
    } else {
      assert (types + [q])[1..] == types[1..] + [q];
      WithoutAppendSelf(types[1..], q);
      assert types == [types[0]] + types[1..];
    }
  }

  /** A selection without repeats stays without repeats. */
  lemma ToggleTypeKeepsDistinct(types: seq<string>, q: string)
    ensures Seqs.NoDuplicates(types) ==> Seqs.NoDuplicates(ToggleType(types, q))
    ensures forall x :: x in ToggleType(types, q) ==> x in types || x == q
  {
    var r := ToggleType(types, q);
    forall x | x in r ensures x in types || x == q {
      if q in types {
        assert multiset(r)[x] > 0;
      }
    }
    if q in types && Seqs.NoDuplicates(types) {
      forall i, j | 0 <= i < j < |r| ensures r[i] != r[j] {
        if r[i] == r[j] {
          Seqs.MultisetTwo(r, i, j);
          Seqs.DistinctCountOne(types, r[i]);
        }
      }
    }
  }

  // ---------------------------------------------------------------------------
  // The panel as a state machine
  // ---------------------------------------------------------------------------

  /** What the user can do on the panel. */
  datatype Event =
    | ClickCategory(query: string)
    | ClickVending
    | ClickChains
    | SetAmenity(amenity: Amenity, on: bool)
    | EnterLat(value: CoordField)
    | EnterLon(value: CoordField)
    | SlideRadius(meters: nat)

  /** An event the rendered panel can produce: the slider only yields its
      own steps, and a cleared coordinate input is stored as blank, never as
      an empty number. */
  predicate Producible(e: Event)
  {
    && (e.SlideRadius? ==> SliderValue(e.meters))
    && (e.EnterLat? ==> e.value != Entered(""))
    && (e.EnterLon? ==> e.value != Entered(""))
  }

  /** The states the panel keeps: at most one mode, no categories while a
      mode is on, each selected tag a distinct catalog entry, the radius on
      the slider. */
  predicate WellFormed(f: Filters)
  {
    && !(f.onlyVending && f.onlyChains)
    && ((f.onlyVending || f.onlyChains) ==> f.selectedTypes == [])
    && Seqs.NoDuplicates(f.selectedTypes)
    && (forall i :: 0 <= i < |f.selectedTypes| ==> Catalog.IsCategoryQuery(f.selectedTypes[i]))
    && SliderValue(f.radius)
  }

  /** One user action. Category checkboxes are only rendered while neither
      mode is on, and only for catalog entries, so a click elsewhere changes
      nothing. */
  function Apply(f: Filters, e: Event): (r: Filters)
    requires Producible(e)
    ensures WellFormed(f) ==> WellFormed(r)
    ensures e.SetAmenity? ==> r == f.(amenities := if e.on then f.amenities + {e.amenity} else f.amenities - {e.amenity})
  {
    match e
    case ClickCategory(q) =>
      if f.onlyVending || f.onlyChains || !Catalog.IsCategoryQuery(q) then f
      else
        var types := ToggleType(f.selectedTypes, q);
        ToggleTypeKeepsDistinct(f.selectedTypes, q);
        assert WellFormed(f) ==> forall i :: 0 <= i < |types| ==> Catalog.IsCategoryQuery(types[i]) by {
          if WellFormed(f) {
            forall i | 0 <= i < |types| ensures Catalog.IsCategoryQuery(types[i]) {
              assert types[i] in types;
              if types[i] != q {
                var k :| 0 <= k < |f.selectedTypes| && f.selectedTypes[k] == types[i];
              }
            }
          }
        }
        f.(selectedTypes := types)
    case ClickVending => ToggleVending(f)
    case ClickChains => ToggleChains(f)
    case SetAmenity(a, on) =>
      f.(amenities := if on then f.amenities + {a} else f.amenities - {a})
    case EnterLat(c) => f.(lat := c)
    case EnterLon(c) => f.(lon := c)
    case SlideRadius(m) => f.(radius := m)
  }

  /** A sequence of user actions from state `f`. */
  function Run(f: Filters, events: seq<Event>): Filters
    requires forall i :: 0 <= i < |events| ==> Producible(events[i])
    decreases |events|
  {
    if events == [] then f else Run(Apply(f, events[0]), events[1..])
  }

  /** Every state the panel can reach from its first rendering keeps the
      exclusivity of the modes and the other well-formedness facts. */
  lemma {:induction false} RunKeepsWellFormed(f: Filters, events: seq<Event>)
    requires WellFormed(f)
    requires forall i :: 0 <= i < |events| ==> Producible(events[i])
    ensures WellFormed(Run(f, events))
    decreases |events|
  {
    if events != [] {
      RunKeepsWellFormed(Apply(f, events[0]), events[1..]);
    }
  }

  lemma InitialWellFormed()
    ensures WellFormed(Initial)
    ensures !Searchable(Initial)
  {
    assert Catalog.Categories[0].query == "shop=convenience";
  }
}
