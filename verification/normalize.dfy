/** Turning the service's raw elements into display records: coordinates,
    naming fallbacks, derived yes/no features, opening hours read through
    the opening-hours library, and the open-now post-filter. */
module Normalizer {
  import opened Wrappers
  import Seqs

  /** An element's OpenStreetMap tags. */
  type Tags = map<string, string>

  /** The tag's value, with an absent tag read as "". Every use below either
      compares with a non-empty constant or tests truthiness, where an
      absent tag and an empty one behave alike. */
  function Tag(tags: Tags, key: string): string
  {
    if key in tags then tags[key] else ""
  }

  /** `tags[key] === value`. */
  predicate TagIs(tags: Tags, key: string, value: string)
  {
    key in tags && tags[key] == value
  }

  /** The centre point the service reports for ways and relations. */
  datatype Center = Center(lat: Option<string>, lon: Option<string>)

  /** A raw element: nodes carry their own coordinates, ways and relations a
      centre; coordinates are kept as the text the service sent. */
  datatype Element = Element(
    id: int,
    center: Option<Center>,
    lat: Option<string>,
    lon: Option<string>,
    tags: Option<Tags>)

  /** What the opening-hours library yields for an hours string at the
      current time: it may throw while parsing or computing the state
      (`Unreadable`), throw only while prettifying (`StateOnly`), or give
      both the state and the prettified value. */
  datatype HoursReading = Unreadable | StateOnly(open: bool) | Readable(open: bool, pretty: string)

  /** A normalised result record. */
  datatype Spot = Spot(
    id: int,
    lat: Option<string>,
    lon: Option<string>,
    name: string,
    tags: Tags,
    is24h: bool,
    hasToilet: bool,
    acceptsCard: bool,
    hasParking: bool,
    wheelchair: bool,
    isVending: bool,
    outdoorSeating: bool,
    hasHotFoodProxy: bool,
    hasLottery: bool,
    sellsCigarettes: bool,
    hasAtm: bool,
    hasMicrowave: bool,
    brand: string,
    openingHours: Option<string>,
    isOpenNow: bool,
    openingHoursHuman: string)

  /** JavaScript's `a || b || … || fallback` over strings: the first
      non-empty candidate, else the fallback. */
  function FirstNonEmpty(candidates: seq<string>, fallback: string): (r: string)
    ensures r == fallback || r in candidates
    ensures (forall i :: 0 <= i < |candidates| ==> candidates[i] == "") ==> r == fallback
    ensures forall i :: 0 <= i < |candidates| && candidates[i] != "" ==>
              (forall j :: 0 <= j < i ==> candidates[j] == "") ==> r == candidates[i]
  {
    if candidates == [] then fallback
    else if candidates[0] != "" then candidates[0]
    else
      var r := FirstNonEmpty(candidates[1..], fallback);
      assert forall i :: 1 <= i < |candidates| ==> candidates[1..][i - 1] == candidates[i];
      r
  }

  /** The label of an unnamed vending machine, or "" when there is no
      vending tag. */
  function VendingLabel(vending: string): string
  {
    if vending != "" then "Vending: " + vending else ""
  }

  /** The display name: name, brand, operator, the vending label, and
      "Snack Spot" as the last resort. */
  function DisplayName(tags: Tags): (r: string)
    ensures r != ""
  {
    FirstNonEmpty([Tag(tags, "name"), Tag(tags, "brand"), Tag(tags, "operator"),
                   VendingLabel(Tag(tags, "vending"))], "Snack Spot")
  }

  /** The brand: brand, brand:en, name, else "". */
  function BrandOf(tags: Tags): string
  {
    FirstNonEmpty([Tag(tags, "brand"), Tag(tags, "brand:en"), Tag(tags, "name")], "")
  }

  /** Open-now state and prettified hours; both fall back to false and ""
      when there is no hours string or the library throws. */
  function ReadHours(raw: string, hours: string -> HoursReading): (r: (bool, string))
    ensures raw == "" ==> r == (false, "")
    ensures r.0 ==> raw != "" && (hours(raw) == StateOnly(true) || (hours(raw).Readable? && hours(raw).open))
    ensures r.1 != "" ==> raw != "" && hours(raw).Readable? && r.1 == hours(raw).pretty
    ensures raw != "" && hours(raw).Readable? ==> r == (hours(raw).open, hours(raw).pretty)
    ensures raw != "" && hours(raw).StateOnly? ==> r == (hours(raw).open, "")
  {
    if raw == "" then (false, "")
    else
      match hours(raw)
      case Unreadable => (false, "")
      case StateOnly(open) => (open, "")
      case Readable(open, pretty) => (open, pretty)
  }

  /** The element's tags, or none. */
  function TagsOf(el: Element): Tags
  {
    el.tags.GetOr(map[])
  }

  /** `el.center?.lat ?? el.lat`. */
  function ResolveLat(el: Element): Option<string>
  {
    if el.center.Some? && el.center.value.lat.Some? then el.center.value.lat else el.lat
  }

  /** `el.center?.lon ?? el.lon`. */
  function ResolveLon(el: Element): Option<string>
  {
    if el.center.Some? && el.center.value.lon.Some? then el.center.value.lon else el.lon
  }

  /** One element to one record. The record's fields are described by the
      lemmas that follow. */
  function Normalize(el: Element, hours: string -> HoursReading): (r: Spot)
    ensures r.id == el.id && r.tags == TagsOf(el)
    ensures r.name != ""
    ensures r.openingHours.Some? <==> "opening_hours" in TagsOf(el)
    ensures r.openingHours.Some? ==> r.openingHours.value == TagsOf(el)["opening_hours"]
    ensures var raw := Tag(TagsOf(el), "opening_hours");
            r.isOpenNow == (raw != "" && !hours(raw).Unreadable? && hours(raw).open)
    ensures var raw := Tag(TagsOf(el), "opening_hours");
            r.openingHoursHuman == if raw != "" && hours(raw).Readable? then hours(raw).pretty else ""
  {
    var tags := TagsOf(el);
    var (open, human) := ReadHours(Tag(tags, "opening_hours"), hours);
    Spot(
      id := el.id,
      lat := ResolveLat(el),
      lon := ResolveLon(el),
      name := DisplayName(tags),
      tags := tags,
      is24h := Tag(tags, "opening_hours") == "24/7",
      hasToilet := Tag(tags, "toilets") == "yes",
      acceptsCard := Tag(tags, "payment:credit_cards") == "yes",
      hasParking := Tag(tags, "parking") == "yes",
      wheelchair := Tag(tags, "wheelchair") == "yes",
      isVending := Tag(tags, "vending") != "",
      outdoorSeating := Tag(tags, "outdoor_seating") == "yes",
      hasHotFoodProxy := Tag(tags, "takeaway") == "yes",
      hasLottery := Tag(tags, "lottery") == "yes" || Tag(tags, "shop") == "lottery",
      sellsCigarettes := Tag(tags, "tobacco") == "yes" || Tag(tags, "shop") == "tobacco"
                         || Tag(tags, "vending") == "cigarettes",
      hasAtm := Tag(tags, "atm") == "yes",
      hasMicrowave := Tag(tags, "microwave") == "yes",
      brand := BrandOf(tags),
      openingHours := if "opening_hours" in tags then Some(tags["opening_hours"]) else None,
      isOpenNow := open,
      openingHoursHuman := human)
  }

  /** Ways and relations are placed at their centre, nodes at their own
      coordinates (`center?.lat ?? lat`, and the same for longitude). */
  lemma NormalizeCoordinates(el: Element, hours: string -> HoursReading)
    ensures var s := Normalize(el, hours);
            && (el.center.Some? && el.center.value.lat.Some? ==> s.lat == el.center.value.lat)
            && (el.center.None? || el.center.value.lat.None? ==> s.lat == el.lat)
            && (el.center.Some? && el.center.value.lon.Some? ==> s.lon == el.center.value.lon)
            && (el.center.None? || el.center.value.lon.None? ==> s.lon == el.lon)
  {
  }

  /** Each yes/no feature holds exactly when its tag is present with the
      value the source compares with; an absent tag never turns one on. */
  lemma NormalizeFeatures(el: Element, hours: string -> HoursReading)
    ensures var s := Normalize(el, hours); var t := TagsOf(el);
            && (s.is24h <==> TagIs(t, "opening_hours", "24/7"))
            && (s.hasToilet <==> TagIs(t, "toilets", "yes"))
            && (s.acceptsCard <==> TagIs(t, "payment:credit_cards", "yes"))
            && (s.hasParking <==> TagIs(t, "parking", "yes"))
            && (s.wheelchair <==> TagIs(t, "wheelchair", "yes"))
            && (s.isVending <==> "vending" in t && t["vending"] != "")
            && (s.outdoorSeating <==> TagIs(t, "outdoor_seating", "yes"))
            && (s.hasHotFoodProxy <==> TagIs(t, "takeaway", "yes"))
            && (s.hasLottery <==> TagIs(t, "lottery", "yes") || TagIs(t, "shop", "lottery"))
            && (s.sellsCigarettes <==> TagIs(t, "tobacco", "yes") || TagIs(t, "shop", "tobacco")
                                       || TagIs(t, "vending", "cigarettes"))
            && (s.hasAtm <==> TagIs(t, "atm", "yes"))
            && (s.hasMicrowave <==> TagIs(t, "microwave", "yes"))
  {
  }

  /** Every derived feature of a record. */
  predicate NoFeatures(s: Spot)
  {
    && !s.is24h && !s.hasToilet && !s.acceptsCard && !s.hasParking && !s.wheelchair
    && !s.isVending && !s.outdoorSeating && !s.hasHotFoodProxy && !s.hasLottery
    && !s.sellsCigarettes && !s.hasAtm && !s.hasMicrowave
  }

  /** An element without tags (missing, or an empty mapping) degrades to
      safe defaults: no feature, the placeholder name, no brand, closed, no
      hours. */
  lemma NormalizeWithoutTags(el: Element, hours: string -> HoursReading)
    requires el.tags.None? || el.tags == Some(map[])
    ensures var s := Normalize(el, hours);
            && NoFeatures(s) && s.name == "Snack Spot" && s.brand == ""
            && !s.isOpenNow && s.openingHoursHuman == "" && s.openingHours.None?
  {
    assert TagsOf(el) == map[];
  }

  /** The display name is the first non-empty of name, brand and operator;
      without those, an element with a vending tag is labelled by it, and
      anything else is "Snack Spot". */
  lemma DisplayNameFallback(tags: Tags)
    ensures Tag(tags, "name") != "" ==> DisplayName(tags) == tags["name"]
    ensures Tag(tags, "name") == "" && Tag(tags, "brand") != "" ==> DisplayName(tags) == tags["brand"]
    ensures Tag(tags, "name") == "" && Tag(tags, "brand") == "" && Tag(tags, "operator") != "" ==>
              DisplayName(tags) == tags["operator"]
    ensures Tag(tags, "name") == "" && Tag(tags, "brand") == "" && Tag(tags, "operator") == "" ==>
              DisplayName(tags) == if Tag(tags, "vending") != "" then "Vending: " + tags["vending"] else "Snack Spot"
  {
    var c := [Tag(tags, "name"), Tag(tags, "brand"), Tag(tags, "operator"), VendingLabel(Tag(tags, "vending"))];
    assert c[0] == Tag(tags, "name") && c[1] == Tag(tags, "brand") && c[2] == Tag(tags, "operator");
    assert c[3] == VendingLabel(Tag(tags, "vending"));
  }

  /** The brand is the first non-empty of brand, brand:en and name, else "". */
  lemma BrandFallback(tags: Tags)
    ensures Tag(tags, "brand") != "" ==> BrandOf(tags) == tags["brand"]
    ensures Tag(tags, "brand") == "" && Tag(tags, "brand:en") != "" ==> BrandOf(tags) == tags["brand:en"]
    ensures Tag(tags, "brand") == "" && Tag(tags, "brand:en") == "" ==> BrandOf(tags) == Tag(tags, "name")
  {
    var c := [Tag(tags, "brand"), Tag(tags, "brand:en"), Tag(tags, "name")];
    assert c[0] == Tag(tags, "brand") && c[1] == Tag(tags, "brand:en") && c[2] == Tag(tags, "name");
  }

  // ---------------------------------------------------------------------------
  // The result list
  // ---------------------------------------------------------------------------

  /** `elements.map(normalise)`. */
  function NormalizeAll(els: seq<Element>, hours: string -> HoursReading): (r: seq<Spot>)
    ensures |r| == |els|
    ensures forall i :: 0 <= i < |els| ==> r[i] == Normalize(els[i], hours)
  {
    if els == [] then [] else [Normalize(els[0], hours)] + NormalizeAll(els[1..], hours)
  }

  /** `spots.filter(m => m.isOpenNow)`. */
  function KeepOpen(spots: seq<Spot>): (r: seq<Spot>)
    ensures forall i :: 0 <= i < |r| ==> r[i].isOpenNow
    ensures Seqs.IsSubsequence(r, spots)
    ensures forall s :: multiset(r)[s] == if s.isOpenNow then multiset(spots)[s] else 0
  {
    if spots == [] then []
    else
      var rest := KeepOpen(spots[1..]);
      assert spots == [spots[0]] + spots[1..];
      if spots[0].isOpenNow then
        var r := [spots[0]] + rest;
        assert r[1..] == rest;
        r
      else
        rest
  }

  /** The list handed to the map and the result panel: every element
      normalised, then, with the open-now toggle on, only the open ones. */
  function Results(els: seq<Element>, hours: string -> HoursReading, openNow: bool): (r: seq<Spot>)
    ensures Seqs.IsSubsequence(r, NormalizeAll(els, hours))
    ensures !openNow ==> |r| == |els| && forall i :: 0 <= i < |els| ==> r[i] == Normalize(els[i], hours)
    ensures openNow ==> forall i :: 0 <= i < |r| ==> r[i].isOpenNow
    ensures openNow ==>
              forall s :: multiset(r)[s] == if s.isOpenNow then multiset(NormalizeAll(els, hours))[s] else 0
  {
    var all := NormalizeAll(els, hours);
    if openNow then KeepOpen(all)
    else
      Seqs.SubsequenceOfSelf(all);
      all
  }

  /** With the open-now toggle on, no open record is lost: each element
      whose record is open contributes it to the results, as many times as
      it occurs. */
  lemma ResultsKeepEveryOpen(els: seq<Element>, hours: string -> HoursReading, i: int)
    requires 0 <= i < |els| && Normalize(els[i], hours).isOpenNow
    ensures Normalize(els[i], hours) in Results(els, hours, true)
  {
    var all := NormalizeAll(els, hours);
    assert all[i] == Normalize(els[i], hours);
    assert all[i] in multiset(all);
  }
}
