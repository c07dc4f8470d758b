/** The place-aggregation engine of src/services/googlePlacesService.ts: one
    provider query per tag, fail-fast on a rejected query, first-wins
    de-duplication by place id, conversion to `Location` (coordinate
    de-duplication, category choice, distance), the betting group and the
    cross-group exclusivity of the final `SearchResult`.

    The provider is a function from request to outcome, the haversine
    distance is a function parameter, and the random fallback id is a
    function parameter too. */
module PlacesService {
  import opened Wrappers
  import opened Sequences
  import opened Types

  /** placesTypeToCategory: provider tag to category. */
  const PlacesTypeToCategory: map<string, Category> := map[
    "school" := School,
    "primary_school" := School,
    "secondary_school" := School,
    "university" := School,
    "church" := Church,
    "place_of_worship" := Church,
    "hospital" := Hospital,
    "doctor" := Hospital,
    "health" := Hospital,
    "community_center" := YouthCenter,
    "amusement_center" := YouthCenter,
    "nursing_home" := NursingHome,
    "senior_care" := NursingHome,
    "casino" := BettingShop,
    "gambling" := BettingShop,
    "park" := Other,
    "library" := Other,
    "post_office" := Other
  ]

  const SensitiveTypesToSearch: seq<string> := [
    "school", "primary_school", "secondary_school", "university",
    "church", "place_of_worship",
    "hospital", "doctor", "health",
    "community_center",
    "nursing_home", "senior_care"
  ]

  const BettingTypesToSearch: seq<string> := ["casino", "gambling"]

  /** A provider result; every field the engine reads may be absent. */
  datatype RawPlace = RawPlace(
    placeId: Option<string>,
    name: Option<string>,
    location: Option<Coord>,
    types: Option<seq<string>>,
    vicinity: Option<string>)

  datatype Status = Ok | ZeroResults | ErrorStatus(code: string)

  /** One nearby-search request: center, radius and a single tag. */
  datatype Request = Request(location: Coord, radius: int, typeTag: string)

  /** What the provider's callback receives: a status and possibly no list. */
  datatype QueryOutcome = QueryOutcome(status: Status, results: Option<seq<RawPlace>>)

  /** The single error the search reports, whatever went wrong. */
  datatype SearchError = SearchFailed

  type Provider = Request -> QueryOutcome

  // ---------------------------------------------------------------------
  // Per-tag queries and the group search
  // ---------------------------------------------------------------------

  /** How the callback settles the per-tag promise: resolved with the list
      on OK with a list, resolved with nothing on ZERO_RESULTS, rejected with
      the status otherwise. */
  function TagOutcome(o: QueryOutcome): Result<seq<RawPlace>, Status> {
    if o.status == Ok && o.results.Some? then Success(o.results.value)
    else if o.status == ZeroResults then Success([])
    else Failure(o.status)
  }

  predicate Rejects(o: QueryOutcome) {
    TagOutcome(o).Failure?
  }

  function Query(provider: Provider, location: Coord, radius: int, tag: string): QueryOutcome {
    provider(Request(location, radius, tag))
  }

  /** The list accumulated by the loop over `tags`, or the status of the
      first rejected query. */
  function Collect(provider: Provider, location: Coord, radius: int, tags: seq<string>)
    : Result<seq<RawPlace>, Status>
    decreases |tags|
  {
    if tags == [] then Success([])
    else
      match Collect(provider, location, radius, tags[..|tags| - 1])
      case Failure(e) => Failure(e)
      case Success(acc) =>
        match TagOutcome(Query(provider, location, radius, tags[|tags| - 1]))
        case Failure(e) => Failure(e)
        case Success(rs) => Success(acc + rs)
  }

  function PlaceIdKey(p: RawPlace): Option<string> {
    p.placeId
  }

  /** The first place of each `place_id` (an absent id is one more id). */
  function DedupById(places: seq<RawPlace>): seq<RawPlace> {
    KeepFirst(places, PlaceIdKey)
  }

  /** What searchPlacesByTypes settles with. */
  function SearchGroup(provider: Provider, location: Coord, radius: int, tags: seq<string>)
    : Result<seq<RawPlace>, Status>
  {
    match Collect(provider, location, radius, tags)
    case Failure(e) => Failure(e)
    case Success(all) => Success(DedupById(all))
  }

  /** searchPlacesByTypes: queries the tags one after another, appending each
      accepted list, and stops at the first rejected query. */
  method SearchPlacesByTypes(provider: Provider, location: Coord, radius: int, types: seq<string>)
    returns (r: Result<seq<RawPlace>, Status>)
    ensures r == SearchGroup(provider, location, radius, types)
  {
    var allResults: seq<RawPlace> := [];
    for i := 0 to |types|
      invariant Collect(provider, location, radius, types[..i]) == Success(allResults)
    {
      assert types[..i + 1][..i] == types[..i] && types[..i + 1][i] == types[i];
      var outcome := provider(Request(location, radius, types[i]));
      assert outcome == Query(provider, location, radius, types[..i + 1][i]);
      if outcome.status == Ok && outcome.results.Some? {
        allResults := allResults + outcome.results.value;
      } else if outcome.status == ZeroResults {
        assert allResults + [] == allResults;
      } else {
        assert Collect(provider, location, radius, types[..i + 1]) == Failure(outcome.status);
        CollectFailurePersists(provider, location, radius, types, i + 1);
        return Failure(outcome.status);
      }
    }
    assert types[..|types|] == types;
    r := Success(DedupById(allResults));
  }

  /** Once a prefix of the tags fails, the whole list fails the same way. */
  lemma {:induction false} CollectFailurePersists(provider: Provider, location: Coord, radius: int,
                                                  tags: seq<string>, n: nat)
    requires n <= |tags| && Collect(provider, location, radius, tags[..n]).Failure?
    ensures Collect(provider, location, radius, tags) == Collect(provider, location, radius, tags[..n])
    decreases |tags| - n
  {
    if n < |tags| {
      assert tags[..n + 1][..n] == tags[..n];
      CollectFailurePersists(provider, location, radius, tags, n + 1);
    } else {
      assert tags[..n] == tags;
    }
  }

  // ---------------------------------------------------------------------
  // Category choice
  // ---------------------------------------------------------------------

  predicate InTable(tag: string) {
    tag in PlacesTypeToCategory
  }

  /** The category a converted place receives: the forced default when there
      is one, otherwise the table value of the first tag found in the table,
      otherwise `other`. */
  function CategoryFor(types: Option<seq<string>>, defaultCategory: Option<Category>): Category {
    if defaultCategory.Some? then defaultCategory.value
    else if types.None? || |types.value| == 0 then Other
    else
      var i := FindIndex(types.value, InTable, true);
      if i < 0 then Other else PlacesTypeToCategory[types.value[i]]
  }

  /** The `for ... break` loop that picks the category. */
  method PickCategory(types: Option<seq<string>>, defaultCategory: Option<Category>)
    returns (category: Category)
    ensures category == CategoryFor(types, defaultCategory)
  {
    category := if defaultCategory.Some? then defaultCategory.value else Other;
    if defaultCategory.None? && types.Some? && |types.value| > 0 {
      var ts := types.value;
      var i := 0;
      while i < |ts|
        invariant 0 <= i <= |ts|
        invariant forall j :: 0 <= j < i ==> ts[j] !in PlacesTypeToCategory
        invariant category == Other
      {
        if ts[i] in PlacesTypeToCategory {
          category := PlacesTypeToCategory[ts[i]];
          assert FindIndex(ts, InTable, true) == i;
          break;
        }
        i := i + 1;
      }
    }
  }

  // ---------------------------------------------------------------------
  // Conversion to Location
  // ---------------------------------------------------------------------

  function Geometry(p: RawPlace): Option<Coord> {
    p.location
  }

  predicate HasGeometry(p: RawPlace) {
    p.location.Some?
  }

  /** `place.name` is truthy: present and not the empty string. */
  predicate HasName(p: RawPlace) {
    p.name.Some? && p.name.value != ""
  }

  predicate Convertible(p: RawPlace) {
    HasGeometry(p) && HasName(p)
  }

  /** The coordinate filter: a place without geometry is dropped, and one
      with geometry is kept when no earlier place has the same coordinates.
      Places without geometry never match in the inner `findIndex`, which is
      the same as treating "no geometry" as one more key and dropping it. */
  function UniqueByCoordinates(places: seq<RawPlace>): seq<RawPlace> {
    Filter(KeepFirst(places, Geometry), HasGeometry)
  }

  /** The places that reach the `map`: coordinate filter first, then the
      geometry-and-name filter. */
  function ConvertiblePlaces(places: seq<RawPlace>): seq<RawPlace> {
    Filter(UniqueByCoordinates(places), Convertible)
  }

  /** Math.round on a real: the nearest integer, halves rounded up. */
  function Round(x: real): (r: int)
    ensures x - 0.5 < r as real <= x + 0.5
  {
    (x + 0.5).Floor
  }

  /** The `map` callback for one place. */
  function ToLocation(p: RawPlace, center: Coord, defaultCategory: Option<Category>,
                      distance: (Coord, Coord) -> real, fallbackId: RawPlace -> string): Location
    requires HasGeometry(p)
  {
    var coords := p.location.value;
    Location(
      if p.placeId.Some? && p.placeId.value != "" then p.placeId.value else fallbackId(p),
      if HasName(p) then p.name.value else "Luogo senza nome",
      CategoryFor(p.types, defaultCategory),
      coords,
      Round(distance(center, coords)),
      if p.vicinity.Some? && p.vicinity.value != "" then p.vicinity else None)
  }

  function ToLocations(places: seq<RawPlace>, center: Coord, defaultCategory: Option<Category>,
                       distance: (Coord, Coord) -> real, fallbackId: RawPlace -> string)
    : (r: seq<Location>)
    requires forall i :: 0 <= i < |places| ==> HasGeometry(places[i])
    ensures |r| == |places|
    ensures forall k :: 0 <= k < |r| ==> r[k] == ToLocation(places[k], center, defaultCategory, distance, fallbackId)
  {
    if places == [] then []
    else [ToLocation(places[0], center, defaultCategory, distance, fallbackId)]
         + ToLocations(places[1..], center, defaultCategory, distance, fallbackId)
  }

  /** convertPlacesToLocations. */
  function ConvertPlacesToLocations(places: seq<RawPlace>, center: Coord, defaultCategory: Option<Category>,
                                    distance: (Coord, Coord) -> real, fallbackId: RawPlace -> string)
    : seq<Location>
  {
    ToLocations(ConvertiblePlaces(places), center, defaultCategory, distance, fallbackId)
  }

  // ---------------------------------------------------------------------
  // The betting group, exclusivity and the result
  // ---------------------------------------------------------------------

  /** The place carries at least one of the betting search tags. */
  predicate HasBettingTag(p: RawPlace) {
    p.types.Some? && exists i :: 0 <= i < |p.types.value| && p.types.value[i] in BettingTypesToSearch
  }

  /** Each place converted on its own with the category forced to
      `betting_shop`, and the one-element results flattened. */
  function ConvertEachAsBetting(places: seq<RawPlace>, center: Coord,
                                distance: (Coord, Coord) -> real, fallbackId: RawPlace -> string)
    : seq<Location>
  {
    if places == [] then []
    else ConvertPlacesToLocations([places[0]], center, Some(BettingShop), distance, fallbackId)
         + ConvertEachAsBetting(places[1..], center, distance, fallbackId)
  }

  function BettingShops(raw: seq<RawPlace>, center: Coord,
                        distance: (Coord, Coord) -> real, fallbackId: RawPlace -> string)
    : seq<Location>
  {
    ConvertEachAsBetting(Filter(raw, HasBettingTag), center, distance, fallbackId)
  }

  predicate SharesCoordinates(l: Location, others: seq<Location>) {
    exists i :: 0 <= i < |others| && others[i].coordinates == l.coordinates
  }

  /** The sensitive entries whose coordinates match no betting shop. */
  function ExcludeBettingCoordinates(sensitive: seq<Location>, betting: seq<Location>): seq<Location> {
    Filter(sensitive, (l: Location) => !SharesCoordinates(l, betting))
  }

  /** The result assembled from the two de-duplicated raw groups. */
  function BuildResult(sensitiveRaw: seq<RawPlace>, bettingRaw: seq<RawPlace>, center: Coord,
                       distance: (Coord, Coord) -> real, fallbackId: RawPlace -> string)
    : SearchResult
  {
    var sensitive := ConvertPlacesToLocations(sensitiveRaw, center, None, distance, fallbackId);
    var betting := BettingShops(bettingRaw, center, distance, fallbackId);
    var unique := ExcludeBettingCoordinates(sensitive, betting);
    SearchResult(unique, betting, |unique| + |betting|)
  }

  /** findNearbyPlacesWithGoogle, as a value: a rejection in either group
      becomes the single search error. */
  function NearbyPlaces(provider: Provider, center: Coord, radius: int,
                        distance: (Coord, Coord) -> real, fallbackId: RawPlace -> string)
    : Result<SearchResult, SearchError>
  {
    var s := SearchGroup(provider, center, radius, SensitiveTypesToSearch);
    var b := SearchGroup(provider, center, radius, BettingTypesToSearch);
    if s.Failure? || b.Failure? then Failure(SearchFailed)
    else Success(BuildResult(s.value, b.value, center, distance, fallbackId))
  }

  /** findNearbyPlacesWithGoogle: both group searches, then the result. */
  method FindNearbyPlaces(provider: Provider, center: Coord, radius: int,
                          distance: (Coord, Coord) -> real, fallbackId: RawPlace -> string)
    returns (r: Result<SearchResult, SearchError>)
    ensures r == NearbyPlaces(provider, center, radius, distance, fallbackId)
  {
    var sensitiveResults := SearchPlacesByTypes(provider, center, radius, SensitiveTypesToSearch);
    var bettingResults := SearchPlacesByTypes(provider, center, radius, BettingTypesToSearch);
    if sensitiveResults.Failure? || bettingResults.Failure? {
      return Failure(SearchFailed);
    }
    r := Success(BuildResult(sensitiveResults.value, bettingResults.value, center, distance, fallbackId));
  }
}
