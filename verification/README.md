# Snack finder core, in Dafny

Snack finder is a small web app. It looks up snack shops, convenience stores and vending machines near a point by sending a query to the OpenStreetMap Overpass service. It then shows the answers on a map and can export them as a GPX file. This project models the app's logic as pure Dafny functions and proves properties of them:

- **Catalog** (`catalog.dfy`): the category checkboxes and the convenience-chain registry, as constant tables.
- **FilterState** (`filters.dfy`): the search panel's state. It holds:
  - the latitude and longitude fields, with JavaScript truthiness, so an exact zero counts as missing;
  - the radius;
  - the category selection;
  - the vending-only and chain-only modes;
  - the twelve amenity toggles.

  It also models the checkbox handlers, and the panel as a state machine over user events.
- **QueryCompiler** (`query.dfy`): the search guard and the Overpass query text.
  - The guard returns one of two error messages or the query.
  - The base selector is chosen with vending first, then chains, then categories.
  - Each enabled amenity contributes one fixed clause.
  - The same selector is used for nodes, ways and relations.

  A decoder splits a query back into its three selectors. Another one reads the category base back into the selection. Each is proved to invert its builder.
- **Normalizer** (`normalize.dfy`): turns a raw element into a result record, then applies the open-now post-filter.
  - Coordinates come from the centre first, then from the element's own lat/lon.
  - The name and the brand use fallback chains.
  - The yes/no features are derived from the tags.
  - The opening-hours library is a parameter: a function from the hours string to a reading. That reading already accounts for the current time, and it can say that the library threw.
- **GpxExport** (`gpx.dfy`): the GPX 1.1 text of an export.
  - It has a fixed header.
  - Each result record gives one waypoint, with markup characters removed from its name.
  - A start waypoint is added when the user's position is known.
  - The file ends with the closing tag.
- **MarkerIcons** (`markers.dfy`): the map pin chosen from a record's brand. The model returns an enumeration instead of a Leaflet icon.
- **Text**, **Seqs**, **Wrappers**: string joining, substring search, ASCII case mapping, decimal rendering, order-preserving sub-lists, and `Option`.

Text is `seq<char>`. Coordinates are opaque strings: the text JavaScript renders for the number, or `undefined` when it is missing. The radius is rendered through `Text.Decimal`.

Three behaviours of the code that the model keeps:

- Chain names go into the query without any escaping.
- The category checkboxes are hidden while a mode is on, so a category click in that state changes nothing.
- Turning a mode off leaves the cleared selection empty.

## Model

| member | source | states |
|---|---|---|
| Catalog.CategoryQueriesQuoteFree | components/SnackSearch.tsx:5-14 | No category tag expression contains a double quote, so quoting one never ends the literal early. |
| FilterState.Without | components/SnackSearch.tsx:190 | Removing a tag from the selection leaves no copy of it and keeps every other tag, as often as before and in the same order. |
| FilterState.ToggleType | components/SnackSearch.tsx:190 | Clicking a selected category removes it and keeps the rest in order; clicking an unselected one appends it at the end. |
| FilterState.ToggleTypeTwice | components/SnackSearch.tsx:190 | Clicking an unselected category twice gives back the original selection. |
| FilterState.ToggleTypeKeepsDistinct | components/SnackSearch.tsx:190 | A selection without repeats stays without repeats, and a click only ever adds the clicked tag. |
| FilterState.ToggleVending | components/SnackSearch.tsx:195 | The vending checkbox flips vending-only mode. Turning it on empties the selection and turns chain-only mode off. Turning it off changes nothing else. Location, radius and amenities are never touched. |
| FilterState.ToggleChains | components/SnackSearch.tsx:199 | The chain checkbox mirrors the vending checkbox. Turning it on empties the selection and turns vending-only mode off. Turning it off changes nothing else. |
| FilterState.Apply | components/SnackSearch.tsx:176-217 | Every panel event keeps a well-formed state well-formed: at most one mode, no categories while a mode is on, distinct catalog tags, a slider radius. An amenity checkbox only adds or removes its own amenity. |
| FilterState.RunKeepsWellFormed | components/SnackSearch.tsx:176-217 | Any sequence of panel events keeps the state well-formed. In particular the two modes are never on together. |
| FilterState.InitialWellFormed | components/SnackSearch.tsx:34-53 | The panel's first state is well-formed, and it cannot search yet because there is no location. |
| QueryCompiler.Search | components/SnackSearch.tsx:70-117 | A falsy latitude or longitude (blank, empty, 0, -0 or NaN) gives "Need a location first". This check comes before the type check. Otherwise, no categories and no mode gives "Pick at least one type". A query is produced exactly when both checks pass. All three of its statements decode to the same selector: base, then filter part, then radius and point. |
| QueryCompiler.FalsyLatitudeNeedsLocation | components/SnackSearch.tsx:71-74 | A blank latitude, or one holding 0, -0 or NaN, gives "Need a location first" whatever else is set. |
| QueryCompiler.ButtonMatchesGuard | components/SnackSearch.tsx:220 | The search button is enabled exactly when the guard would produce a query. |
| QueryCompiler.VendingOverridesSelection | components/SnackSearch.tsx:84-85 | In vending-only mode the base is `"vending"=*`, whatever the categories and the chain mode are. |
| QueryCompiler.ChainsOverrideSelection | components/SnackSearch.tsx:86-90 | In chain-only mode, with vending-only off, the base is the chain base whatever the categories are. |
| QueryCompiler.ChainClauses | components/SnackSearch.tsx:87-89 | Position 6i+k of the chain clauses is the match of registry name i against key k. The keys come in the order brand, name, brand:en, name:en, brand:ja, name:ja. |
| QueryCompiler.ChainBaseClauses | components/SnackSearch.tsx:86-90 | The chain base is `shop=convenience AND (`, then every clause of every registry name joined by ` OR `, then `)`. |
| QueryCompiler.CategoryBaseRoundTrip | components/SnackSearch.tsx:92 | The category base can be read back into the exact selection, in order, whenever no tag holds a double quote. |
| QueryCompiler.WellFormedCategoryRoundTrip | components/SnackSearch.tsx:92 | Every selection the panel can hold reads back exactly, in order, from its category base. |
| QueryCompiler.QueryOrderComplete | components/SnackSearch.tsx:95-106 | Every amenity except open-now has a clause in the query. |
| QueryCompiler.ClauseInjective | components/SnackSearch.tsx:96-106 | No two amenities share a clause. |
| QueryCompiler.ClauseQueriedIff | components/SnackSearch.tsx:95-106 | An amenity's clause appears in the filter list exactly when its toggle is on. |
| QueryCompiler.FilterClausesMonotone | components/SnackSearch.tsx:95-106 | Turning on more toggles only inserts clauses: the earlier ones remain, in the same relative order. |
| QueryCompiler.FilterPartEmptyIff | components/SnackSearch.tsx:95-108 | The filter part is empty exactly when no toggle other than open-now is on. |
| QueryCompiler.OpenNowNotInQuery | components/SnackSearch.tsx:95-117 | The open-now toggle never changes the guard's outcome or the query text. |
| QueryCompiler.Toilet24hFilterPart | components/SnackSearch.tsx:95-108 | With toilet and 24/7 on, the filter part is the 24/7 clause immediately followed by the toilet clause, in declaration order. |
| QueryCompiler.ConvenienceToilet24hExample | components/SnackSearch.tsx:83-108 | Convenience stores with toilet and 24/7 give the quoted category followed by exactly those two clauses, and the search succeeds. |
| QueryCompiler.QueryTextDecodes | components/SnackSearch.tsx:109-117 | Splitting a query at its fixed header, statement separators and trailer yields the same selector three times. |
| QueryCompiler.StatementsDetermineQuery | components/SnackSearch.tsx:109-117 | A text whose three statements hold the same selector is exactly the query for that selector. |
| Text.DecimalRoundTrip | components/SnackSearch.tsx:112 | The radius rendered in decimal reads back as the same number. |
| Text.Contains | components/MapView.tsx:32-34 | Substring search answers true exactly when the pattern occurs somewhere in the text. |
| Normalizer.FirstNonEmpty | components/SnackSearch.tsx:138 | A chain of `a \|\| b \|\| …` gives the first non-empty candidate, or the fallback when every candidate is empty. |
| Normalizer.DisplayNameFallback | components/SnackSearch.tsx:138 | The display name is name, else brand, else operator, else "Vending: " plus the vending tag, else "Snack Spot". |
| Normalizer.BrandFallback | components/SnackSearch.tsx:152 | The brand is brand, else brand:en, else name, else "". |
| Normalizer.ReadHours | components/SnackSearch.tsx:123-132 | With no hours string, or a library that throws, the record is closed with no readable hours. The open state is kept even when only prettifying throws. Otherwise both values come from the library. |
| Normalizer.Normalize | components/SnackSearch.tsx:121-156 | A record keeps the element's id and tags and always has a non-empty name. It keeps the raw hours string exactly when that tag is present. It is open exactly when the hours string is non-empty and the library computed a state that is open. Its readable hours are the library's prettified text when the string is non-empty and prettifying succeeded, and empty in every other case. |
| Normalizer.NormalizeCoordinates | components/SnackSearch.tsx:136-137 | Coordinates come from the centre when it has them, otherwise from the element's own latitude and longitude. |
| Normalizer.NormalizeFeatures | components/SnackSearch.tsx:140-151 | Each feature holds exactly when its tag has the compared value. 24/7 means the hours string equals "24/7". Lottery and cigarettes are the stated disjunctions. Vending means a non-empty vending tag. |
| Normalizer.NormalizeWithoutTags | components/SnackSearch.tsx:122-156 | An element without tags gets no feature, the "Snack Spot" name, no brand, closed, and no hours. |
| Normalizer.NormalizeAll | components/SnackSearch.tsx:121 | Each element gives exactly one record, in the same position. |
| Normalizer.KeepOpen | components/SnackSearch.tsx:159-161 | The open-now filter keeps exactly the open records: each as often as it occurred, in original order, and nothing else. |
| Normalizer.Results | components/SnackSearch.tsx:121-161 | The results are an order-preserving sub-list of the normalised records. With open-now off they are all of them, unchanged. With it on, they are exactly the open ones: each open record appears as often as among the normalised records, in the same order, and no closed record remains. |
| Normalizer.ResultsKeepEveryOpen | components/SnackSearch.tsx:159-161 | With open-now on, every open record survives the filter. |
| GpxExport.Strip | src/App.tsx:22 | Markup removal leaves no `<`, `>` or `&`. It keeps every other character, as often and in the same order, and leaves markup-free text unchanged. |
| GpxExport.StripOnlyMarkup | src/App.tsx:22 | A text made only of markup characters is stripped to nothing. |
| GpxExport.WaypointName | src/App.tsx:22 | A waypoint name holds no markup. It is "Snack Spot" for an unnamed record. For a named record it keeps every other character of the name, as often and in the same order, and it is the name itself when that is already free of markup. |
| GpxExport.MarkupOnlyNameIsEmpty | src/App.tsx:22 | Because the fallback is chosen before stripping, a name made only of markup gives an empty waypoint name. |
| GpxExport.WaypointDesc | src/App.tsx:26 | The description is the shop tag (or nothing), one space, then "24/7" exactly for round-the-clock places. |
| GpxExport.Waypoints | src/App.tsx:21-37 | There is one snack waypoint per record, in order, plus a start waypoint at the user's position exactly when one is known, placed last. Every name is free of markup. |
| GpxExport.Document | src/App.tsx:17-38 | A document starts with the fixed GPX header and ends with the closing tag. |
| GpxExport.DocumentAppend | src/App.tsx:21-38 | Adding a waypoint inserts its block just before the closing tag and changes nothing else. |
| GpxExport.ExportGpx | src/App.tsx:16-38 | The export always starts with the GPX header and ends with the closing tag. |
| GpxExport.ExportWithStart | src/App.tsx:31-38 | A known position adds exactly the start waypoint block, after every snack waypoint. |
| GpxExport.ExportAppendMarker | src/App.tsx:21-29 | One more record adds exactly its waypoint block before the closing tag and leaves the earlier blocks untouched. |
| GpxExport.ExportEmpty | src/App.tsx:16-38 | With no records and no position the export is the header followed by the closing tag. |
| MarkerIcons.MarkerFor | components/MapView.tsx:30-36 | The pin is 7-Eleven exactly when the lower-cased brand contains "7-eleven" or "セブン". It is FamilyMart exactly when it is not 7-Eleven and the brand contains "familymart" or "ファミリー". It is Lawson exactly when it is neither and the brand contains "lawson" or "ローソン". Otherwise it is the default pin. |
| MarkerIcons.MarkerIgnoresCase | components/MapView.tsx:31 | Changing the case of the brand's ASCII letters never changes the pin. |
| MarkerIcons.NoBrandDefault | components/MapView.tsx:31-35 | A record without a brand gets the default pin. |
| MarkerIcons.EarlierChainWins | components/MapView.tsx:32-34 | A brand naming both 7-Eleven and Lawson gets the 7-Eleven pin. |
| MarkerIcons.SpelledOutSevenElevenIsDefault | components/MapView.tsx:32 | "Seven Eleven", in any ASCII case, gets the default pin, even though the chain search looks for that spelling. |
| MarkerIcons.LowerKeepsOccurrence | components/MapView.tsx:31 | Lower-casing keeps every occurrence of a pattern that has no ASCII capitals. |
| MarkerIcons.KatakanaSevenRecognised | components/MapView.tsx:31-32 | A brand containing the katakana name of 7-Eleven gets its pin, whatever else it says. |
| MarkerIcons.KatakanaChainRecognised | components/MapView.tsx:31-34 | A brand containing the katakana name of FamilyMart or Lawson never gets the default pin. |

## Left out

- The Overpass request (components/SnackSearch.tsx:119-120) and its error message and loading flags (163-169) are network I/O. The model stops at the query text and starts again at the returned elements.
- The opening-hours library (components/SnackSearch.tsx:128-130) is a foreign library read at the current clock time. It is a function parameter that returns a reading; its parsing is not modelled.
- Geolocation (components/SnackSearch.tsx:55-68), React state updates, rendering and the `setLoading`/`setError` calls are left out as UI plumbing. The guard's messages are returned as values instead.
- Parsing the latitude and longitude inputs with `Number` (components/SnackSearch.tsx:176-177) is floating point. A field is either blank or holds the text that JavaScript renders for the number.
- Float-to-string rendering of coordinates in the query and the GPX file: coordinates are opaque strings.
- The great-circle distance (src/App.tsx:5-14, components/MapView.tsx:13-22) is floating-point trigonometry.
- The Blob, object URL and download click of the GPX export (src/App.tsx:40-46) are browser I/O.
- Opening directions (src/App.tsx:49-64) is a wrapper over URL encoding and `window.open`.
- Leaflet icon objects, map centring and rendering in components/MapView.tsx: the pin is an enumeration.
- The root `App.tsx` and `main.tsx` are wiring and map configuration only.
- MarkerIcons.MarkerFor: `toLowerCase` is modelled on ASCII letters only. The classifier's patterns are lower-case ASCII or katakana, and katakana has no case. The few non-ASCII capitals that JavaScript lower-cases into ASCII letters are left unchanged here: the Kelvin sign and the dotted capital I, which becomes "i" plus a combining dot.
- QueryCompiler.CategoryBaseRoundTrip: assumes no selected tag holds a double quote. Every catalog entry satisfies this, and the panel only offers catalog entries. Chain names are not escaped and are not read back.
- QueryCompiler.StatementsDetermineQuery: reads the three statements back only when they have equal length. It does not parse Overpass QL in general.
