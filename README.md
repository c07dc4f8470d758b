# GeoBet Analyzer: the place-aggregation engine in Dafny

This project models the engine that finds sensitive places (schools, places
of worship, hospitals, youth centres, elder-care homes) and gambling venues
around a point, and proves what it promises. It also models the small
derivations the two result views compute from its output.

- `PlacesService` models `src/services/googlePlacesService.ts`. It holds the
  static tag tables and the per-tag search loop (`SearchPlacesByTypes`, a
  method with a loop). It fails fast on a rejected query and de-duplicates by
  `place_id`, keeping the first occurrence. It then converts places to
  `Location`: coordinate de-duplication, the name filter, the category choice
  and the rounded distance. The conversion uses the function `CategoryFor`
  for the category. `PickCategory` is the source's `for … break` loop as a
  method, proved to compute `CategoryFor`; no other member calls it. Last
  come the betting group, the cross-group exclusivity and the assembled
  `SearchResult` (`FindNearbyPlaces`, a method).
- `PlacesProperties` proves the engine's properties about the functions that
  specify those methods.
- `Types` models the `Location`, `LocationCategory` and `SearchResult` types
  of `src/types/index.ts`.
- `CategoryUtils` models `getCategoryInfo`: a table lookup with a fallback.
- `LocationStats` models the category tally. That tally is a method with two
  loops over a local map. The module also covers the totals and
  `activeCategories`.
- `LocationsList` models the combined list, the category filter, the stable
  sort by distance and the choice of view.
- `Sequences` holds generic models of `filter` and `findIndex`. It also holds
  the "keep the first element of each key" filter built from the two, with
  its lemmas. `Wrappers` holds `Option` and `Result`.

The provider is a function from a request (center, radius, tag) to an
outcome (status, optional list). The haversine distance is a function
parameter. The random fallback id is a function parameter too.

## Behaviour as the code has it

- Places inside one group are queried one after another. A status other
  than OK or ZERO_RESULTS fails the whole search. So does OK without a result
  list.
- A place is dropped if it lacks geometry OR lacks a name; either one is
  enough. A name counts as missing when it is absent or empty (JavaScript
  truthiness). An empty `place_id` gets the fallback id. An empty vicinity
  gives no address.
- Coordinate de-duplication applies to every converted group, whatever the
  ids are.
- Coordinate de-duplication runs before the name filter. A nameless place
  therefore hides a named place recorded later at the same coordinates, and
  neither is shown. `PlacesProperties.NamelessPlaceShadowsNamedPlace` proves
  this.
- Betting places are converted one at a time. Two betting shops can share
  coordinates, as `PlacesProperties.BettingShopsMayShareCoordinates` shows.

## Model

| member | source | states |
|---|---|---|
| `PlacesProperties.SearchTagsAreMapped` | src/services/googlePlacesService.ts:4-57 | every sensitive and betting search tag is a key of the tag table, and both betting tags map to `betting_shop` |
| `Sequences.FindIndex` | src/services/googlePlacesService.ts:106 | `findIndex`: the first position whose key matches, or -1 exactly when no position matches |
| `PlacesService.SearchPlacesByTypes` | src/services/googlePlacesService.ts:76-110 | the loop over the tags returns exactly the specified group search: accepted lists appended in tag order, the first rejection's status on failure, then de-duplication by `place_id` |
| `PlacesProperties.CollectSpec` | src/services/googlePlacesService.ts:80-101 | the loop fails iff some tag is rejected, and then with the status of the first rejected tag; otherwise it yields every tag's accepted list concatenated in tag order |
| `PlacesProperties.ZeroResultsTagIgnored` | src/services/googlePlacesService.ts:91-92 | a tag answered with ZERO_RESULTS can be removed from the tag list, at any position, without changing the loop's outcome |
| `PlacesProperties.OkWithoutResultsFails` | src/services/googlePlacesService.ts:89-95 | an OK answer without a result list fails the whole group |
| `PlacesProperties.DedupByIdSpec` | src/services/googlePlacesService.ts:103-107 | the de-duplicated group is an order-preserving subsequence of the concatenation, no two survivors share a `place_id` (absent ids are equal to each other), and de-duplicating again changes nothing |
| `PlacesProperties.DedupByIdKeepsFirst` | src/services/googlePlacesService.ts:104-107 | first occurrence wins: every place that is the first with its `place_id` survives, every survivor is such a first place, and the survivors come in the order of their ids' first occurrences |
| `PlacesProperties.SearchGroupSpec` | src/services/googlePlacesService.ts:76-110 | a group search fails iff one of its queries is rejected, and otherwise returns the de-duplicated concatenation of the accepted lists |
| `PlacesService.PickCategory` | src/services/googlePlacesService.ts:188-198 | the `for … break` loop computes the specified category choice |
| `PlacesProperties.CategoryForSpec` | src/services/googlePlacesService.ts:186-198 | a forced default is returned whatever the tags; otherwise the table value of the first tag in the table; `other` when the tags are missing, empty or all unknown |
| `PlacesService.Round` | src/services/googlePlacesService.ts:205 | `Math.round` gives the integer nearest to its argument, with halves rounded up |
| `PlacesProperties.ConvertiblePlacesSpec` | src/services/googlePlacesService.ts:160-174 | the converted places are an order-preserving subsequence of the input; all have geometry and a non-empty name; their coordinates are pairwise distinct; every named place with geometry that no earlier place shares coordinates with is kept, and every kept place is the first of the input at its coordinates (so a nameless place hides later places at its coordinates); the kept places come in the order of their coordinates' first occurrences |
| `PlacesProperties.ConvertiblePlacesShape` | src/services/googlePlacesService.ts:161-174 | the converted places are an order-preserving subsequence of the input, all with geometry and a non-empty name, with pairwise distinct coordinates |
| `PlacesProperties.ConvertiblePlacesKeepsFirst` | src/services/googlePlacesService.ts:161-174 | a place with geometry and a name that no earlier place shares coordinates with is converted |
| `PlacesProperties.ConvertiblePlacesAreFirst` | src/services/googlePlacesService.ts:161-171 | every converted place is the first place of the input at its coordinates, named or not |
| `PlacesProperties.ConvertedPlaceIsFirst` | src/services/googlePlacesService.ts:161-171 | the `k`-th converted place is the first place of the input with its coordinates |
| `PlacesProperties.ConvertiblePlacesOrdered` | src/services/googlePlacesService.ts:161-171 | the converted places come in the order of the first occurrences of their coordinates |
| `PlacesProperties.NamelessPlaceShadowsNamedPlace` | src/services/googlePlacesService.ts:161-174 | a nameless place followed by a named place at the same coordinates yields no converted place at all |
| `PlacesProperties.ToLocationFields` | src/services/googlePlacesService.ts:200-207 | the Location made from a place with geometry and a name has that place's coordinates and name, its non-empty `place_id` as id, the chosen category, the rounded distance from the center, and its non-empty vicinity as address (none when the vicinity is absent or empty) |
| `PlacesProperties.ConvertPlacesToLocationsSpec` | src/services/googlePlacesService.ts:155-209 | one Location per converted place, in order, with that place's coordinates, its name (never the fallback name), its non-empty `place_id` as id, the chosen category, the rounded distance from the center and its non-empty vicinity as address (none when absent or empty); output coordinates are pairwise distinct |
| `PlacesProperties.ConvertSingle` | src/services/googlePlacesService.ts:128 | converting a one-place list yields that place's Location if it has geometry and a name, and nothing otherwise |
| `PlacesProperties.ConvertEachSpec` | src/services/googlePlacesService.ts:128-129 | converting places one at a time and flattening equals converting every place that has geometry and a name, with no coordinate de-duplication |
| `PlacesProperties.BettingShopsAsMap` | src/services/googlePlacesService.ts:124-129 | the betting shops are the places with a betting tag, geometry and a name, each converted as `betting_shop`, in order |
| `PlacesProperties.BettingShopsOrigin` | src/services/googlePlacesService.ts:124-129 | every betting shop has category `betting_shop` and comes from a raw place with a `casino` or `gambling` tag |
| `PlacesProperties.TaggedOrigin` | src/services/googlePlacesService.ts:124-128 | every place that reaches the betting conversion is a raw betting-group place with a `casino` or `gambling` tag, geometry and a name |
| `PlacesProperties.BettingShopsComplete` | src/services/googlePlacesService.ts:124-129 | every raw place with a betting tag, geometry and a name yields a betting shop |
| `PlacesProperties.BettingShopsMayShareCoordinates` | src/services/googlePlacesService.ts:124-129 | two betting places at the same coordinates both become betting shops |
| `PlacesProperties.ExcludeBettingCoordinatesSpec` | src/services/googlePlacesService.ts:133-138 | the exclusion keeps, in order, exactly the sensitive entries whose coordinates match no betting shop, every copy of each, so no coordinate pair survives in both lists |
| `PlacesProperties.BuildResultSpec` | src/services/googlePlacesService.ts:118-145 | the betting shops pass through unchanged; the sensitive places are the converted sensitive places, in order, whose coordinates match no betting shop; no coordinate pair is in both lists; the total is the sum of the two lengths |
| `PlacesService.FindNearbyPlaces` | src/services/googlePlacesService.ts:62-150 | running both group searches and assembling the result gives exactly the specified search outcome |
| `PlacesProperties.NearbyPlacesSpec` | src/services/googlePlacesService.ts:113-149 | the whole search fails iff a query of either group is rejected; otherwise the result is built from the two de-duplicated concatenations |
| `Types.AllCategoriesComplete` | src/types/index.ts:10-17 | every category occurs exactly once in the list of the seven categories |
| `Types.CategoryNameInjective` | src/types/index.ts:10-17 | distinct categories have distinct run-time names |
| `CategoryUtils.GetCategoryInfo` | src/utils/categoryUtils.ts:6-46 | the lookup always returns one of the seven table records, namely the key's own record when the key is in the table |
| `CategoryUtils.TableKeysAreCategoryNames` | src/utils/categoryUtils.ts:7-43 | the table has no key other than the seven category names |
| `CategoryUtils.GetCategoryInfoDefined` | src/utils/categoryUtils.ts:7-43 | every category has its own entry |
| `CategoryUtils.GetCategoryInfoFallback` | src/utils/categoryUtils.ts:45 | any key outside the table yields the same record as `other` |
| `CategoryUtils.LabelsIdentifyCategory` | src/utils/categoryUtils.ts:8-42 | the seven labels are pairwise distinct, so a label identifies its category |
| `LocationStats.TallyCategories` | src/components/LocationStats.tsx:10-28 | after the two loops, every category's count is the number of entries of that category in the sensitive list followed by the betting list (all seven start at zero) |
| `LocationStats.CountsAddUp` | src/components/LocationStats.tsx:21-28 | the seven counts add up to the number of entries |
| `LocationStats.TotalSensitiveExcludesOther` | src/components/LocationStats.tsx:31 | the sensitive total is the number of sensitive entries minus those in category `other` |
| `LocationStats.ActiveCategoriesSpec` | src/components/LocationStats.tsx:36-38 | a category is active iff its count is positive, and the active categories keep the record's key order |
| `LocationStats.Summarize` | src/components/LocationStats.tsx:9-38 | the counts, the sum of counts = both lengths, the sensitive total without `other`, the betting total = its length, the grand total = the two totals = sum of counts minus sensitive `other` entries (so at most the sum), and the active categories |
| `LocationsList.FilteredLocationsSpec` | src/components/LocationsList.tsx:15-17 | filter `all` returns the list unchanged; a category filter keeps, in order, exactly the entries of that category, with every copy of each (equal multiplicities) |
| `LocationsList.SortByDistanceSpec` | src/components/LocationsList.tsx:20 | the sorted list is a permutation of its input, in non-decreasing distance, and entries at equal distance keep their relative order |
| `LocationsList.ChooseViewSpec` | src/components/LocationsList.tsx:22-77 | no center and not loading shows the prompt; loading shows the spinner; otherwise the list is shown, with a header count equal to both lists' combined length, the sorted filtered entries, and the "no places" message iff the filtered list is empty |

## Left out

- Google Maps calls (`LatLng`, `PlacesService`, the `nearbySearch` callback) are not modelled. The provider is a function parameter from request to outcome.
- The query count is not modelled. The source stops issuing queries after the first rejection. With a pure provider, the queries it skips change nothing observable.
- `Promise.all` is not modelled. The two groups share no state, so they run as two sequential group searches.
- The haversine formula and IEEE double arithmetic are not modelled. Distance is a function parameter over reals, and `Math.round` is rounding of a real.
- Coordinates are abstract real pairs compared with `==`. The double quirks of `===` (NaN, signed zero) are not modelled.
- The random fallback id is a function parameter. Only the `place_id` case is specified.
- Console logging and the error texts are not modelled. Any failure of the search is the single `SearchFailed` value. A group failure carries the rejected status.
- The object-literal lookups `placesTypeToCategory[type]` (googlePlacesService.ts:193-194) and `categoryMap[category]` (categoryUtils.ts:45) can match inherited prototype keys such as `constructor` in JavaScript. Both tables here are finite maps, so that quirk is not modelled.
- GetCategoryInfo: gives the `other` record for every string outside the table, including prototype keys such as `constructor`. In JavaScript those return an inherited value instead. The model treats the table as a plain map.
- The percentage bars of LocationStats (float division, possible division by zero) are not modelled. Neither is any JSX rendering.
- The filter selector's React state is not modelled. The filter is a parameter, and the lists are values, so the copy-then-sort leaves the inputs unchanged by construction.
- The fresh table that `getCategoryInfo` builds on every call is not modelled as state. The lookup is a function, so equal inputs give equal outputs by construction.
- Every query carries the search center and radius. This holds by construction, because each request is built from the search's own parameters. No lemma states it.
- src/services/locationService.ts is not part of this model. It is a geocoder wrapper that turns failures into `null`.
- src/context/AppContext.tsx is not part of this model. It is React state and effects, including the unsynchronised race between stale and fresh searches.
- The other UI components are not part of this model. These are the API loader, Map, MainContent, AddressSearch, RadiusControl, Header, Footer and App.
