/** The two fixed registries of the search panel: the selectable categories
    (caption shown on the checkbox, tag expression it contributes) and the
    convenience-store chain names searched in chain-only mode. */
module Catalog {

  datatype Category = Category(caption: string, query: string)

  /** The category checkboxes, in the order they are offered. */
  const Categories: seq<Category> := [
    Category("Convenience", "shop=convenience"),
    Category("Supermarket", "shop=supermarket"),
    Category("Candy / Sweets", "shop=confectionery"),
    Category("Bakery", "shop=bakery"),
    Category("Ice Cream", "amenity=ice_cream"),
    Category("Bubble Tea", "shop=bubble_tea"),
    Category("Beverage", "shop=beverages"),
    Category("Vending (any)", "vending=*")
  ]

  /** The chain names matched in chain-only mode, in registry order. */
  const ConvenienceChains: seq<string> := [
    "7-Eleven", "Seven Eleven", "セブン-イレブン",
    "FamilyMart", "ファミリーマート",
    "Lawson", "ローソン",
    "Ministop", "ミニストップ",
    "Daily Yamazaki", "デイリーヤマザキ",
    "NewDays", "New Days", "NewDay",
    "Popura", "ポプラ",
    "Seicomart", "セイコーマート"
  ]

  /** `q` is the tag expression of one of the category checkboxes. */
  predicate IsCategoryQuery(q: string)
  {
    exists i :: 0 <= i < |Categories| && Categories[i].query == q
  }

  /** No category tag holds a double quote, so quoting a selection of them
      never closes a quoted literal early. */
  lemma CategoryQueriesQuoteFree()
    ensures forall i :: 0 <= i < |Categories| ==> '"' !in Categories[i].query
  {
    forall i | 0 <= i < |Categories|
      ensures '"' !in Categories[i].query
    {
      var q := Categories[i].query;
      assert forall k :: 0 <= k < |q| ==> q[k] != '"';
    }
  }
}
