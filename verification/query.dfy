/** The search guard and the Overpass query text it builds: a base selector
    chosen from the modes and categories, one clause per enabled amenity
    toggle, and the same bracketed selector for nodes, ways and relations
    around the chosen point. Names and tags are interpolated verbatim: there
    is no escaping and no check that the text is valid Overpass QL. */
module QueryCompiler {
  import opened Wrappers
  import opened Text
  import opened FilterState
  import Catalog
  import Seqs

  datatype SearchOutcome = Rejected(message: string) | Compiled(query: string)

  const NeedLocation: string := "Need a location first"
  const PickType: string := "Pick at least one type"

  // ---------------------------------------------------------------------------
  // Base selector
  // ---------------------------------------------------------------------------

  /** The vending-only base: any value of the `vending` tag. */
  const VendingBase: string := "\"vending\"=*"

  function Quote(q: string): string
  {
    "\"" + q + "\""
  }

  function QuoteEach(types: seq<string>): (r: seq<string>)
    ensures |r| == |types|
    ensures forall i :: 0 <= i < |types| ==> r[i] == Quote(types[i])
  {
    if types == [] then [] else [Quote(types[0])] + QuoteEach(types[1..])
  }

  /** The category base: each selected tag double-quoted, in selection
      order, separated by single spaces. */
  function CategoryBase(types: seq<string>): string
  {
    Join(QuoteEach(types), " ")
  }

  /** `["key"="value"]`, with `value` inserted as is. */
  function KeyMatch(key: string, value: string): string
  {
    "[\"" + key + "\"=\"" + value + "\"]"
  }

  /** The six tags a chain name is looked up in. */
  const ChainKeys: seq<string> := ["brand", "name", "brand:en", "name:en", "brand:ja", "name:ja"]

  /** The six clauses for one chain name, in `ChainKeys` order. */
  function NameMatches(name: string): (r: seq<string>)
    ensures |r| == |ChainKeys|
    ensures forall k :: 0 <= k < |ChainKeys| ==> r[k] == KeyMatch(ChainKeys[k], name)
  {
    seq(|ChainKeys|, k requires 0 <= k < |ChainKeys| => KeyMatch(ChainKeys[k], name))
  }

  /** One chain name's six clauses joined by ` OR `. */
  function ChainCondition(name: string): string
  {
    Join(NameMatches(name), " OR ")
  }

  function ChainConditions(names: seq<string>): (r: seq<string>)
    ensures |r| == |names|
    ensures forall i :: 0 <= i < |names| ==> r[i] == ChainCondition(names[i])
  {
    if names == [] then [] else [ChainCondition(names[0])] + ChainConditions(names[1..])
  }

  /** The chain-only base: convenience shops, and a disjunction of every
      registry name's conditions in registry order. */
  function ChainBase(): string
  {
    "shop=convenience AND (" + Join(ChainConditions(Catalog.ConvenienceChains), " OR ") + ")"
  }

  /** The base selector: vending-only wins over chain-only, which wins over
      the category selection. */
  function BaseQuery(f: Filters): string
  {
    if f.onlyVending then VendingBase
    else if f.onlyChains then ChainBase()
    else CategoryBase(f.selectedTypes)
  }

  // ---------------------------------------------------------------------------
  // Amenity clauses
  // ---------------------------------------------------------------------------

  /** The toggles that contribute to the query, in declaration order; the
      open-now toggle is applied after the response and is not among them. */
  const QueryOrder: seq<Amenity> :=
    [Open24h, Toilet, CreditCard, Parking, Wheelchair, OutdoorSeating,
     HotFood, Lottery, Cigarettes, Atm, Microwave]

  /** The fixed clause of one toggle. */
  function Clause(a: Amenity): (c: string)
    requires a != OpenNow
    ensures |c| > 0
  {
    match a
    case Open24h => KeyMatch("opening_hours", "24/7")
    case Toilet => KeyMatch("toilets", "yes")
    case CreditCard => KeyMatch("payment:credit_cards", "yes")
    case Parking => KeyMatch("parking", "yes")
    case Wheelchair => KeyMatch("wheelchair", "yes")
    case OutdoorSeating => KeyMatch("outdoor_seating", "yes")
    case HotFood => KeyMatch("takeaway", "yes")
    case Lottery => KeyMatch("lottery", "yes") + " OR " + KeyMatch("shop", "lottery")
    case Cigarettes =>
      KeyMatch("tobacco", "yes") + " OR " + KeyMatch("shop", "tobacco") + " OR " + KeyMatch("vending", "cigarettes")
    case Atm => KeyMatch("atm", "yes")
    case Microwave => KeyMatch("microwave", "yes")
  }

  /** The clauses of the enabled toggles among `order`, in `order`. */
  function ClausesFor(order: seq<Amenity>, on: set<Amenity>): seq<string>
    requires OpenNow !in order
  {
    if order == [] then []
    else (if order[0] in on then [Clause(order[0])] else []) + ClausesFor(order[1..], on)
  }

  /** The `filters` list of the search handler. */
  function FilterClauses(on: set<Amenity>): seq<string>
  {
    ClausesFor(QueryOrder, on)
  }

  /** The clauses concatenated with no separator. */
  function FilterPart(on: set<Amenity>): string
  {
    Concat(FilterClauses(on))
  }

  // ---------------------------------------------------------------------------
  // Query text
  // ---------------------------------------------------------------------------

  const Head: string := "\n      [out:json][timeout:30];\n      (\n        node"
  const AfterNode: string := ";\n        way"
  const AfterWay: string := ";\n        relation"
  const Tail: string := ";\n      );\n      out center;\n    "

  /** `[base+filters](around:radius,lat,lon)`. */
  function Selector(base: string, filterPart: string, radius: nat, lat: string, lon: string): string
  {
    "[" + base + filterPart + "](around:" + Decimal(radius) + "," + lat + "," + lon + ")"
  }

  /** The fixed text around the three selectors of a query. */
  datatype Frame = Frame(head: string, afterNode: string, afterWay: string, tail: string)

  const QueryFrame: Frame := Frame(Head, AfterNode, AfterWay, Tail)

  /** The frame's pieces with the same selector in each of the three gaps. */
  function Framed(fr: Frame, sel: string): string
  {
    fr.head + sel + fr.afterNode + sel + fr.afterWay + sel + fr.tail
  }

  /** The query: the output header, then one statement per geometry kind,
      each with the same selector, then `out center`. */
  function QueryText(sel: string): string
  {
    Framed(QueryFrame, sel)
  }

  /** The search handler's guard and query construction. */
  function Search(f: Filters): (r: SearchOutcome)
    ensures !Present(f.lat) || !Present(f.lon) ==> r == Rejected(NeedLocation)
    ensures (Present(f.lat) && Present(f.lon) && f.selectedTypes == [] && !f.onlyVending && !f.onlyChains)
              ==> r == Rejected(PickType)
    ensures r.Compiled? <==> Searchable(f)
    ensures r.Compiled? ==>
              var sel := Selector(BaseQuery(f), FilterPart(f.amenities), f.radius, f.lat.text, f.lon.text);
              Statements(r.query) == Some([sel, sel, sel])
  {
    if !Present(f.lat) || !Present(f.lon) then Rejected(NeedLocation)
    else if |f.selectedTypes| == 0 && !f.onlyVending && !f.onlyChains then Rejected(PickType)
    else
      var sel := Selector(BaseQuery(f), FilterPart(f.amenities), f.radius, f.lat.text, f.lon.text);
      QueryTextDecodes(sel);
      Compiled(QueryText(sel))
  }

  /** A latitude that is blank or holds a falsy number, zero included,
      stops the search before anything else is looked at. */
  lemma FalsyLatitudeNeedsLocation(f: Filters)
    requires f.lat.Blank? || FalsyText(f.lat.text)
    ensures Search(f) == Rejected(NeedLocation)
  {
  }

  /** The search button is enabled exactly when the guard lets a query
      through. */
  predicate ButtonEnabled(f: Filters)
  {
    !((!f.onlyVending && !f.onlyChains && |f.selectedTypes| == 0) || !Present(f.lat) || !Present(f.lon))
  }

  lemma ButtonMatchesGuard(f: Filters)
    ensures ButtonEnabled(f) <==> Search(f).Compiled?
  {
  }

  // ---------------------------------------------------------------------------
  // Base selector properties
  // ---------------------------------------------------------------------------

  /** Vending-only mode selects `"vending"=*` whatever else is selected. */
  lemma VendingOverridesSelection(f: Filters, types: seq<string>, chains: bool)
    ensures BaseQuery(f.(onlyVending := true, selectedTypes := types, onlyChains := chains)) == VendingBase
  {
  }

  /** Chain-only mode, with vending-only off, ignores the category selection. */
  lemma ChainsOverrideSelection(f: Filters, types: seq<string>)
    ensures BaseQuery(f.(onlyVending := false, onlyChains := true, selectedTypes := types)) == ChainBase()
  {
  }

  /** Index of the first double quote of `t`, or `|t|` when there is none. */
  function QuoteIndex(t: string): (k: nat)
    ensures k <= |t|
    ensures forall i :: 0 <= i < k ==> t[i] != '"'
    ensures k < |t| ==> t[k] == '"'
  {
    if t == [] then 0 else if t[0] == '"' then 0 else 1 + QuoteIndex(t[1..])
  }

  /** Reads one double-quoted item off the front of `s`: the item and
      what follows its closing quote. */
  function ReadItem(s: string): (r: Option<(string, string)>)
    ensures r.Some? ==> |r.value.1| < |s|
  {
    if |s| < 2 || s[0] != '"' then None
    else
      var k := QuoteIndex(s[1..]);
      if k == |s| - 1 then None
      else Some((s[1..k + 1], s[k + 2..]))
  }

  /** Reads a non-empty list of double-quoted items separated by single
      spaces. */
  function ParseQuoted(s: string): Option<seq<string>>
    decreases |s|
  {
    match ReadItem(s)
    case None => None
    case Some((item, rest)) =>
      if rest == "" then Some([item])
      else if rest[0] != ' ' then None
      else
        match ParseQuoted(rest[1..])
        case None => None
        case Some(items) => Some([item] + items)
  }

  /** A quoted item without inner quotes is read back off any text that
      follows it. */
  lemma ReadQuotedItem(x: string, tail: string)
    requires '"' !in x
    ensures ReadItem(Quote(x) + tail) == Some((x, tail))
  {
    var s := Quote(x) + tail;
    assert s == "\"" + (x + ("\"" + tail));
    assert s[1..] == x + ("\"" + tail);
    QuoteIndexAfterQuoteFree(x, "\"" + tail);
    assert s[1..|x| + 1] == x;
    assert s[|x| + 2..] == tail;
  }

  /** Reads a category base back into the selection it was built from. */
  function ParseCategoryBase(s: string): Option<seq<string>>
  {
    if s == "" then Some([]) else ParseQuoted(s)
  }

  /** Every selection the panel can hold reads back from its category
      base: the panel only offers catalog entries, and none of them holds a
      double quote. */
  lemma WellFormedCategoryRoundTrip(f: Filters)
    requires WellFormed(f)
    ensures ParseCategoryBase(CategoryBase(f.selectedTypes)) == Some(f.selectedTypes)
  {
    Catalog.CategoryQueriesQuoteFree();
    forall i | 0 <= i < |f.selectedTypes|
      ensures '"' !in f.selectedTypes[i]
    {
      var k :| 0 <= k < |Catalog.Categories| && Catalog.Categories[k].query == f.selectedTypes[i];
    }
    CategoryBaseRoundTrip(f.selectedTypes);
  }

  lemma QuoteIndexAfterQuoteFree(x: string, tail: string)
    requires '"' !in x && |tail| > 0 && tail[0] == '"'
    ensures QuoteIndex(x + tail) == |x|
  {
    assert (x + tail)[|x|] == '"';
  }

  /** The category base loses nothing: as long as no selected tag contains a
      double quote (no catalog entry does), the selection, in order, can be
      read back from it. */
  lemma {:induction false} CategoryBaseRoundTrip(types: seq<string>)
    requires forall i :: 0 <= i < |types| ==> '"' !in types[i]
    ensures ParseCategoryBase(CategoryBase(types)) == Some(types)
  {
    if types != [] {
      QuotedRoundTrip(types);
    }
  }

  lemma {:induction false} QuotedRoundTrip(types: seq<string>)
    requires |types| > 0
    requires forall i :: 0 <= i < |types| ==> '"' !in types[i]
    ensures ParseQuoted(Join(QuoteEach(types), " ")) == Some(types)
  {
    var x := types[0];
    assert '"' !in x;
    if |types| == 1 {
      assert QuoteEach(types) == [Quote(x)];
      assert Join(QuoteEach(types), " ") == Quote(x);
      ParseSingleItem(x);
      assert types == [x];
    } else {
      var more := Join(QuoteEach(types[1..]), " ");
      JoinQuotedCons(types);
      assert forall i :: 0 <= i < |types[1..]| ==> '"' !in types[1..][i] by {
        forall i | 0 <= i < |types[1..]|
          ensures '"' !in types[1..][i]
        {
          assert types[1..][i] == types[i + 1];
        }
      }
      QuotedRoundTrip(types[1..]);
      ParseItemThen(x, more, types[1..]);
      assert [x] + types[1..] == types;
    }
  }

  lemma JoinQuotedCons(types: seq<string>)
    requires |types| > 1
    ensures Join(QuoteEach(types), " ") == Quote(types[0]) + (" " + Join(QuoteEach(types[1..]), " "))
  {
    var qs := QuoteEach(types);
    var more := Join(QuoteEach(types[1..]), " ");
    assert qs[1..] == QuoteEach(types[1..]);
    assert Join(qs, " ") == qs[0] + " " + more;
    ConcatAssoc(Quote(types[0]), " ", more);
  }

  lemma ConcatAssoc(a: string, b: string, c: string)
    ensures a + b + c == a + (b + c)
  {
  }

  /** A single quoted item reads back as itself. */
  lemma ParseSingleItem(x: string)
    requires '"' !in x
    ensures ParseQuoted(Quote(x)) == Some([x])
  {
    ReadQuotedItem(x, "");
    assert Quote(x) + "" == Quote(x);
  }

  /** A quoted item, a space and a readable rest read back as the item
      followed by the rest's items. */
  lemma ParseItemThen(x: string, more: string, items: seq<string>)
    requires '"' !in x
    requires ParseQuoted(more) == Some(items)
    ensures ParseQuoted(Quote(x) + (" " + more)) == Some([x] + items)
  {
    ReadQuotedItem(x, " " + more);
    assert (" " + more)[1..] == more;
  }

  /** Each registry name's six clauses, registry order first, key order
      within a name. */
  function ChainClauses(names: seq<string>): (r: seq<string>)
    ensures |r| == 6 * |names|
    ensures forall i, k :: 0 <= i < |names| && 0 <= k < 6 ==> r[6 * i + k] == KeyMatch(ChainKeys[k], names[i])
  {
    if names == [] then []
    else
      var rest := ChainClauses(names[1..]);
      var r := NameMatches(names[0]) + rest;
      assert forall i, k :: 0 <= i < |names| && 0 <= k < 6 ==> r[6 * i + k] == KeyMatch(ChainKeys[k], names[i]) by {
        forall i, k | 0 <= i < |names| && 0 <= k < 6
          ensures r[6 * i + k] == KeyMatch(ChainKeys[k], names[i])
        {
          if i > 0 {
            assert r[6 * i + k] == rest[6 * (i - 1) + k];
            assert names[1..][i - 1] == names[i];
          }
        }
      }
      r
  }

  function ChainGroups(names: seq<string>): (r: seq<seq<string>>)
    ensures |r| == |names|
    ensures forall i :: 0 <= i < |names| ==> r[i] == NameMatches(names[i])
  {
    if names == [] then [] else [NameMatches(names[0])] + ChainGroups(names[1..])
  }

  lemma {:induction false} FlattenChainGroups(names: seq<string>)
    ensures Flatten(ChainGroups(names)) == ChainClauses(names)
  {
    if names != [] {
      assert ChainGroups(names)[1..] == ChainGroups(names[1..]);
      FlattenChainGroups(names[1..]);
    }
  }

  /** The chain-only base is `shop=convenience AND (`, then every clause of
      every registry name joined by ` OR ` (six per name, registry order,
      brand / name / brand:en / name:en / brand:ja / name:ja), then `)`. */
  lemma ChainBaseClauses()
    ensures ChainBase() == "shop=convenience AND (" + Join(ChainClauses(Catalog.ConvenienceChains), " OR ") + ")"
  {
    ChainConditionsFlat(Catalog.ConvenienceChains);
  }

  /** Joining each name's joined clauses equals joining all the clauses. */
  lemma ChainConditionsFlat(names: seq<string>)
    ensures Join(ChainConditions(names), " OR ") == Join(ChainClauses(names), " OR ")
  {
    var sep := " OR ";
    var groups := ChainGroups(names);
    assert JoinEach(groups, sep) == ChainConditions(names);
    JoinOfJoins(groups, sep);
    FlattenChainGroups(names);
  }

  // ---------------------------------------------------------------------------
  // Amenity clause properties
  // ---------------------------------------------------------------------------

  /** Every amenity but open-now contributes to the query. */
  lemma QueryOrderComplete(a: Amenity)
    ensures a in QueryOrder <==> a != OpenNow
  {
  }

  /** Different toggles have different clauses. */
  lemma ClauseInjective(a: Amenity, b: Amenity)
    requires a != OpenNow && b != OpenNow && a != b
    ensures Clause(a) != Clause(b)
  {
    ClauseLengths();
    if (a == Toilet && b == Parking) || (a == Parking && b == Toilet) {
      assert Clause(Toilet)[2] == 't' && Clause(Parking)[2] == 'p';
    }
  }

  /** The clauses' lengths: only the toilet and parking clauses share one. */
  lemma ClauseLengths()
    ensures |Clause(Open24h)| == 24 && |Clause(Toilet)| == 17 && |Clause(CreditCard)| == 30
    ensures |Clause(Parking)| == 17 && |Clause(Wheelchair)| == 20 && |Clause(OutdoorSeating)| == 25
    ensures |Clause(HotFood)| == 18 && |Clause(Lottery)| == 39 && |Clause(Cigarettes)| == 67
    ensures |Clause(Atm)| == 13 && |Clause(Microwave)| == 19
  {
  }

  lemma {:induction false} ClausesForMember(order: seq<Amenity>, on: set<Amenity>, a: Amenity)
    requires OpenNow !in order && a != OpenNow
    ensures Clause(a) in ClausesFor(order, on) <==> a in order && a in on
  {
    if order != [] {
      ClausesForMember(order[1..], on, a);
      if order[0] != a {
        ClauseInjective(order[0], a);
      }
      assert a in order <==> a == order[0] || a in order[1..];
    }
  }

  /** A toggle's clause is in the query exactly when the toggle is on. */
  lemma ClauseQueriedIff(on: set<Amenity>, a: Amenity)
    requires a != OpenNow
    ensures Clause(a) in FilterClauses(on) <==> a in on
  {
    ClausesForMember(QueryOrder, on, a);
    QueryOrderComplete(a);
  }

  lemma {:induction false} ClausesForMonotone(order: seq<Amenity>, on1: set<Amenity>, on2: set<Amenity>)
    requires OpenNow !in order && on1 <= on2
    ensures Seqs.IsSubsequence(ClausesFor(order, on1), ClausesFor(order, on2))
  {
    if order != [] {
      var x := ClausesFor(order[1..], on1);
      var y := ClausesFor(order[1..], on2);
      ClausesForMonotone(order[1..], on1, on2);
      var c := [Clause(order[0])];
      if order[0] in on1 {
        assert ClausesFor(order, on1) == c + x && ClausesFor(order, on2) == c + y;
        assert (c + x)[1..] == x && (c + y)[1..] == y;
      } else if order[0] in on2 {
        assert ClausesFor(order, on1) == x && ClausesFor(order, on2) == c + y;
        assert (c + y)[1..] == y;
      } else {
        assert ClausesFor(order, on1) == x && ClausesFor(order, on2) == y;
      }
    }
  }

  /** Turning more toggles on only inserts clauses: the clauses of a smaller
      set appear, in the same relative order, among those of a larger one. */
  lemma FilterClausesMonotone(on1: set<Amenity>, on2: set<Amenity>)
    requires on1 <= on2
    ensures Seqs.IsSubsequence(FilterClauses(on1), FilterClauses(on2))
  {
    ClausesForMonotone(QueryOrder, on1, on2);
  }

  lemma {:induction false} ClausesForOnlyOrder(order: seq<Amenity>, on1: set<Amenity>, on2: set<Amenity>)
    requires OpenNow !in order
    requires forall a :: a in order ==> (a in on1 <==> a in on2)
    ensures ClausesFor(order, on1) == ClausesFor(order, on2)
  {
    if order != [] {
      ClausesForOnlyOrder(order[1..], on1, on2);
    }
  }

  /** The open-now toggle never changes the query text. */
  lemma OpenNowNotInQuery(f: Filters)
    ensures Search(f.(amenities := f.amenities + {OpenNow})) == Search(f.(amenities := f.amenities - {OpenNow}))
  {
    ClausesForOnlyOrder(QueryOrder, f.amenities + {OpenNow}, f.amenities - {OpenNow});
  }

  lemma {:induction false} ConcatEmpty(parts: seq<string>)
    requires forall i :: 0 <= i < |parts| ==> |parts[i]| > 0
    ensures Concat(parts) == "" <==> parts == []
  {
    if parts != [] {
      assert |Concat(parts)| >= |parts[0]|;
    }
  }

  lemma {:induction false} ClausesForNonEmpty(order: seq<Amenity>, on: set<Amenity>)
    requires OpenNow !in order
    ensures forall i :: 0 <= i < |ClausesFor(order, on)| ==> |ClausesFor(order, on)[i]| > 0
    ensures ClausesFor(order, on) == [] <==> forall a :: a in order ==> a !in on
  {
    if order != [] {
      ClausesForNonEmpty(order[1..], on);
      var rest := ClausesFor(order[1..], on);
      var head := if order[0] in on then [Clause(order[0])] else [];
      assert ClausesFor(order, on) == head + rest;
      assert forall i :: 0 <= i < |head| ==> |head[i]| > 0;
      assert forall a :: a in order ==> a == order[0] || a in order[1..];
    }
  }

  /** The filter part is empty exactly when no toggle other than open-now
      is on. */
  lemma FilterPartEmptyIff(on: set<Amenity>)
    ensures FilterPart(on) == "" <==> on <= {OpenNow}
  {
    ClausesForNonEmpty(QueryOrder, on);
    ConcatEmpty(FilterClauses(on));
    forall a ensures a in QueryOrder <==> a != OpenNow {
      QueryOrderComplete(a);
    }
  }

  /** With the toilet and 24/7 toggles on, the filter part is exactly those
      two clauses, 24/7 first as declared, whatever order the toggles were
      turned on in. */
  lemma Toilet24hFilterPart()
    ensures FilterPart({Toilet, Open24h}) == Clause(Open24h) + Clause(Toilet)
  {
    Toilet24hClauses();
    ConcatPair(Clause(Open24h), Clause(Toilet));
  }

  lemma Toilet24hClauses()
    ensures FilterClauses({Toilet, Open24h}) == [Clause(Open24h), Clause(Toilet)]
  {
    var later := [CreditCard, Parking, Wheelchair, OutdoorSeating, HotFood, Lottery, Cigarettes, Atm, Microwave];
    assert QueryOrder == [Open24h, Toilet] + later;
    ClausesForFirstTwo(QueryOrder, {Toilet, Open24h});
  }

  lemma ClausesForFirstTwo(order: seq<Amenity>, on: set<Amenity>)
    requires OpenNow !in order && |order| >= 2 && order[0] in on && order[1] in on
    requires forall a :: a in order[2..] ==> a !in on
    ensures ClausesFor(order, on) == [Clause(order[0]), Clause(order[1])]
  {
    var later := order[2..];
    ClausesForNonEmpty(later, on);
    assert order[1..][1..] == later;
    assert ClausesFor(order[1..], on) == [Clause(order[1])] + ClausesFor(later, on);
  }

  /** Convenience stores with the toilet and 24/7 toggles on: every
      statement's brackets hold the quoted category immediately followed by
      exactly the two clauses, 24/7 first. */
  lemma ConvenienceToilet24hExample(f: Filters)
    requires Present(f.lat) && Present(f.lon)
    requires f.selectedTypes == ["shop=convenience"] && !f.onlyVending && !f.onlyChains
    requires f.amenities == {Toilet, Open24h}
    ensures BaseQuery(f) + FilterPart(f.amenities)
         == Quote("shop=convenience") + KeyMatch("opening_hours", "24/7") + KeyMatch("toilets", "yes")
    ensures Search(f).Compiled?
  {
    Toilet24hFilterPart();
    assert QuoteEach(f.selectedTypes) == [Quote("shop=convenience")];
    assert BaseQuery(f) == Quote("shop=convenience");
  }

  // ---------------------------------------------------------------------------
  // Reading a query back
  // ---------------------------------------------------------------------------

  /** Splits a text into the three gaps of a frame, when it has the
      frame's pieces around three gaps of the same length. */
  function Unframe(fr: Frame, t: string): Option<seq<string>>
  {
    var fixed := |fr.head| + |fr.afterNode| + |fr.afterWay| + |fr.tail|;
    if |t| < fixed || (|t| - fixed) % 3 != 0 then None
    else
      var n := (|t| - fixed) / 3;
      var a := |fr.head|;
      var b := a + n + |fr.afterNode|;
      var c := b + n + |fr.afterWay|;
      if t[..a] == fr.head && t[a + n..b] == fr.afterNode && t[b + n..c] == fr.afterWay && t[c + n..] == fr.tail
      then Some([t[a..a + n], t[b..b + n], t[c..c + n]])
      else None
  }

  lemma {:induction false} UnframeFramed(fr: Frame, sel: string)
    ensures Unframe(fr, Framed(fr, sel)) == Some([sel, sel, sel])
  {
    var t := Framed(fr, sel);
    LaidFramed(fr, sel);
    var fixed := |fr.head| + |fr.afterNode| + |fr.afterWay| + |fr.tail|;
    assert |t| - fixed == 3 * |sel|;
    assert (|t| - fixed) / 3 == |sel|;
  }

  /** The framed text lays its pieces out one after another. */
  lemma LaidFramed(fr: Frame, sel: string)
    ensures Laid(Framed(fr, sel), fr.head, fr.afterNode, fr.afterWay, fr.tail, sel)
  {
    var t := Framed(fr, sel);
    var q1 := fr.head + sel;
    var q2 := q1 + fr.afterNode;
    var q3 := q2 + sel;
    var q4 := q3 + fr.afterWay;
    var q5 := q4 + sel;
    assert t == q5 + fr.tail;
    assert t[..|q5|] == q5 && t[|q5|..] == fr.tail;
    SplitLast(t, q4, sel);
    SplitLast(t, q3, fr.afterWay);
    SplitLast(t, q2, sel);
    SplitLast(t, q1, fr.afterNode);
    SplitLast(t, fr.head, sel);
  }

  /** A prefix of `t` made of `q` and then `piece` shows both in place. */
  lemma SplitLast(t: string, q: string, piece: string)
    requires |q| + |piece| <= |t| && t[..|q| + |piece|] == q + piece
    ensures t[..|q|] == q && t[|q|..|q| + |piece|] == piece
  {
    assert t[..|q|] == t[..|q| + |piece|][..|q|];
    assert t[|q|..|q| + |piece|] == t[..|q| + |piece|][|q|..];
  }

  lemma FramedDetermined(fr: Frame, t: string, sel: string)
    requires Unframe(fr, t) == Some([sel, sel, sel])
    ensures t == Framed(fr, sel)
  {
    UnframeSlices(fr, t, sel);
    Assemble(t, fr.head, fr.afterNode, fr.afterWay, fr.tail, sel);
  }

  /** A text holding the pieces `h`, `sel`, `x`, `sel`, `y`, `sel`, `z`
      one after another is their concatenation. */
  lemma Assemble(t: string, h: string, x: string, y: string, z: string, sel: string)
    requires Laid(t, h, x, y, z, sel)
    ensures t == h + sel + x + sel + y + sel + z
  {
    var a := |h|;
    var b := a + |sel| + |x|;
    var c := b + |sel| + |y|;
    Step(t, a, h, sel);
    Step(t, a + |sel|, h + sel, x);
    Step(t, b, h + sel + x, sel);
    Step(t, b + |sel|, h + sel + x + sel, y);
    Step(t, c, h + sel + x + sel + y, sel);
    Close(t, c + |sel|, h + sel + x + sel + y + sel, z);
  }

  /** What a successful split says about the text, position by position. */
  lemma UnframeSlices(fr: Frame, t: string, sel: string)
    requires Unframe(fr, t) == Some([sel, sel, sel])
    ensures Laid(t, fr.head, fr.afterNode, fr.afterWay, fr.tail, sel)
  {
  }

  /** `t` holds `h`, `sel`, `x`, `sel`, `y`, `sel`, `z` one after another
      and nothing else. */
  predicate Laid(t: string, h: string, x: string, y: string, z: string, sel: string)
  {
    var a := |h|;
    var b := a + |sel| + |x|;
    var c := b + |sel| + |y|;
    && c + |sel| + |z| == |t|
    && t[..a] == h && t[a..a + |sel|] == sel
    && t[a + |sel|..b] == x && t[b..b + |sel|] == sel
    && t[b + |sel|..c] == y && t[c..c + |sel|] == sel
    && t[c + |sel|..] == z
  }

  /** A prefix known up to `k`, followed by a known piece, is known up to
      the piece's end. */
  lemma Step(t: string, k: nat, pre: string, piece: string)
    requires k + |piece| <= |t| && t[..k] == pre && t[k..k + |piece|] == piece
    ensures t[..k + |piece|] == pre + piece
  {
    assert t[..k + |piece|] == t[..k] + t[k..k + |piece|];
  }

  /** A text is its prefix up to `k` followed by the rest. */
  lemma Close(t: string, k: nat, pre: string, rest: string)
    requires k <= |t| && t[..k] == pre && t[k..] == rest
    ensures t == pre + rest
  {
    assert t == t[..k] + t[k..];
  }

  /** Splits a query into the selectors of its node, way and relation
      statements, when it has the query's frame and the three selectors have
      the same length. */
  function Statements(t: string): Option<seq<string>>
  {
    Unframe(QueryFrame, t)
  }

  /** The three statements of a query carry the very same selector. */
  lemma QueryTextDecodes(sel: string)
    ensures Statements(QueryText(sel)) == Some([sel, sel, sel])
  {
    UnframeFramed(QueryFrame, sel);
  }

  /** A text whose three selectors agree is the query for that selector. */
  lemma StatementsDetermineQuery(t: string, sel: string)
    requires Statements(t) == Some([sel, sel, sel])
    ensures t == QueryText(sel)
  {
    FramedDetermined(QueryFrame, t, sel);
  }
}
