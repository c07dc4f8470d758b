/** What the place-aggregation engine promises, proved about the model in
    module PlacesService. */
module PlacesProperties {
  import opened Wrappers
  import opened Sequences
  import opened Types
  import opened PlacesService

  // ---------------------------------------------------------------------
  // Static tables
  // ---------------------------------------------------------------------

  /** Every searched tag has a category, and both betting tags are betting shops. */
  lemma SearchTagsAreMapped()
    ensures forall i :: 0 <= i < |SensitiveTypesToSearch| ==> SensitiveTypesToSearch[i] in PlacesTypeToCategory
    ensures forall i :: 0 <= i < |BettingTypesToSearch| ==>
      BettingTypesToSearch[i] in PlacesTypeToCategory && PlacesTypeToCategory[BettingTypesToSearch[i]] == BettingShop
  {
  }

  // ---------------------------------------------------------------------
  // Category choice
  // ---------------------------------------------------------------------

  /** Position `i` holds the first tag of `ts` that the table knows. */
  predicate FirstMapped(ts: seq<string>, i: int) {
    0 <= i < |ts| && ts[i] in PlacesTypeToCategory && forall j :: 0 <= j < i ==> ts[j] !in PlacesTypeToCategory
  }

  lemma CategoryForSpec(types: Option<seq<string>>, defaultCategory: Option<Category>)
    ensures defaultCategory.Some? ==> CategoryFor(types, defaultCategory) == defaultCategory.value
    ensures defaultCategory.None? && types.Some? ==>
      forall i :: FirstMapped(types.value, i) ==> CategoryFor(types, defaultCategory) == PlacesTypeToCategory[types.value[i]]
    ensures defaultCategory.None? && (types.None? || forall i :: 0 <= i < |types.value| ==> types.value[i] !in PlacesTypeToCategory)
      ==> CategoryFor(types, defaultCategory) == Other
  {
    if defaultCategory.None? && types.Some? && |types.value| > 0 {
      var ts := types.value;
      var r := FindIndex(ts, InTable, true);
      forall i | FirstMapped(ts, i) ensures r == i {
        assert InTable(ts[i]);
      }
    }
  }

  // ---------------------------------------------------------------------
  // Per-tag queries
  // ---------------------------------------------------------------------

  /** What an outcome adds to the accumulated list when it is accepted. */
  function Payload(o: QueryOutcome): seq<RawPlace> {
    if o.status == Ok && o.results.Some? then o.results.value else []
  }

  /** Reference: every tag's accepted list, concatenated in tag order. */
  function Appended(provider: Provider, location: Coord, radius: int, tags: seq<string>): seq<RawPlace> {
    if tags == [] then []
    else Payload(Query(provider, location, radius, tags[0])) + Appended(provider, location, radius, tags[1..])
  }

  lemma {:induction false} AppendedSnoc(provider: Provider, location: Coord, radius: int, tags: seq<string>, t: string)
    ensures Appended(provider, location, radius, tags + [t])
         == Appended(provider, location, radius, tags) + Payload(Query(provider, location, radius, t))
  {
    if tags == [] {
      assert [t][1..] == [];
      assert Appended(provider, location, radius, [t]) == Payload(Query(provider, location, radius, t));
    } else {
      assert (tags + [t])[0] == tags[0];
      assert (tags + [t])[1..] == tags[1..] + [t];
      AppendedSnoc(provider, location, radius, tags[1..], t);
    }
  }

  /** The loop's result: it fails exactly when some tag is rejected, with the
      status of the first rejected tag; otherwise it is every accepted list
      in tag order. */
  lemma {:induction false} CollectSpec(provider: Provider, location: Coord, radius: int, tags: seq<string>)
    ensures Collect(provider, location, radius, tags).Failure?
        <==> exists i :: 0 <= i < |tags| && Rejects(Query(provider, location, radius, tags[i]))
    ensures Collect(provider, location, radius, tags).Failure? ==>
      exists i :: 0 <= i < |tags| && Rejects(Query(provider, location, radius, tags[i]))
        && Collect(provider, location, radius, tags).error == Query(provider, location, radius, tags[i]).status
        && forall j :: 0 <= j < i ==> !Rejects(Query(provider, location, radius, tags[j]))
    ensures Collect(provider, location, radius, tags).Success? ==>
      Collect(provider, location, radius, tags).value == Appended(provider, location, radius, tags)
    decreases |tags|
  {
    if tags != [] {
      var n := |tags| - 1;
      var init, t := tags[..n], tags[n];
      assert tags == init + [t];
      CollectSpec(provider, location, radius, init);
      AppendedSnoc(provider, location, radius, init, t);
      forall i | 0 <= i < n ensures tags[i] == init[i] { }
    }
  }

  /** A tag answered with ZERO_RESULTS can be dropped from the tag list
      without changing the outcome of the loop. */
  lemma {:induction false} ZeroResultsTagIgnored(provider: Provider, location: Coord, radius: int,
                                                 a: seq<string>, t: string, b: seq<string>)
    requires Query(provider, location, radius, t).status == ZeroResults
    ensures Collect(provider, location, radius, a + [t] + b) == Collect(provider, location, radius, a + b)
    decreases |b|
  {
    if b == [] {
      assert a + [t] + b == a + [t];
      assert (a + [t])[..|a|] == a;
      assert a + b == a;
      match Collect(provider, location, radius, a)
      case Failure(_) =>
      case Success(acc) => assert acc + [] == acc;
    } else {
      var n := |b| - 1;
      var b', x := b[..n], b[n];
      assert a + [t] + b == (a + [t] + b') + [x];
      assert a + b == (a + b') + [x];
      assert (a + [t] + b' + [x])[..|a + [t] + b'|] == a + [t] + b';
      assert (a + b' + [x])[..|a + b'|] == a + b';
      ZeroResultsTagIgnored(provider, location, radius, a, t, b');
    }
  }

  /** A query answered OK but without a result list fails the whole group,
      like any status other than OK and ZERO_RESULTS. */
  lemma OkWithoutResultsFails(provider: Provider, location: Coord, radius: int, tags: seq<string>, i: nat)
    requires i < |tags|
    requires Query(provider, location, radius, tags[i]).status == Ok
    requires Query(provider, location, radius, tags[i]).results.None?
    ensures SearchGroup(provider, location, radius, tags).Failure?
  {
    CollectSpec(provider, location, radius, tags);
  }

  // ---------------------------------------------------------------------
  // De-duplication by place id and the group search
  // ---------------------------------------------------------------------

  /** No place before position `i` has the `place_id` of the place at `i`. */
  predicate FirstOfItsId(places: seq<RawPlace>, i: int)
    requires 0 <= i < |places|
  {
    forall j :: 0 <= j < i ==> places[j].placeId != places[i].placeId
  }

  /** The group de-duplication gives an order-preserving subsequence with no
      repeated `place_id`, and applying it again changes nothing. */
  lemma DedupByIdSpec(places: seq<RawPlace>)
    ensures IsSubsequence(DedupById(places), places)
    ensures forall a, b :: 0 <= a < b < |DedupById(places)| ==>
              DedupById(places)[a].placeId != DedupById(places)[b].placeId
    ensures DedupById(DedupById(places)) == DedupById(places)
  {
    var d := DedupById(places);
    KeepFirstSubsequence(places, PlaceIdKey);
    KeepFirstDistinct(places, PlaceIdKey);
    assert forall a, b :: 0 <= a < b < |d| ==> PlaceIdKey(d[a]) != PlaceIdKey(d[b]);
    KeepFirstIdempotent(places, PlaceIdKey);
  }

  /** First occurrence wins: the survivors are exactly the places that are
      the first of their `place_id`, in the order of those first occurrences. */
  lemma DedupByIdKeepsFirst(places: seq<RawPlace>)
    ensures forall i :: 0 <= i < |places| && FirstOfItsId(places, i) ==> places[i] in DedupById(places)
    ensures forall k :: 0 <= k < |DedupById(places)| ==>
              exists i :: 0 <= i < |places| && FirstOfItsId(places, i) && places[i] == DedupById(places)[k]
    ensures forall a, b :: 0 <= a < b < |DedupById(places)| ==>
              FindIndex(places, PlaceIdKey, DedupById(places)[a].placeId)
                < FindIndex(places, PlaceIdKey, DedupById(places)[b].placeId)
  {
    var d := DedupById(places);
    KeepFirstOrdered(places, PlaceIdKey);
    forall i | 0 <= i < |places| && FirstOfItsId(places, i)
      ensures places[i] in d
    {
      assert FindIndex(places, PlaceIdKey, PlaceIdKey(places[i])) == i;
      KeepFirstKeepsFirst(places, PlaceIdKey, i);
    }
    KeepFirstAreFirst(places, PlaceIdKey);
    forall k | 0 <= k < |d|
      ensures exists i :: 0 <= i < |places| && FirstOfItsId(places, i) && places[i] == d[k]
    {
      var i := FindIndex(places, PlaceIdKey, PlaceIdKey(d[k]));
      assert places[i] == d[k];
      assert FirstOfItsId(places, i);
    }
  }

  /** searchPlacesByTypes fails exactly when one of its tags is rejected, and
      otherwise returns the de-duplicated concatenation of the accepted lists. */
  lemma SearchGroupSpec(provider: Provider, location: Coord, radius: int, tags: seq<string>)
    ensures SearchGroup(provider, location, radius, tags).Failure?
        <==> exists i :: 0 <= i < |tags| && Rejects(Query(provider, location, radius, tags[i]))
    ensures SearchGroup(provider, location, radius, tags).Success? ==>
      SearchGroup(provider, location, radius, tags).value == DedupById(Appended(provider, location, radius, tags))
  {
    CollectSpec(provider, location, radius, tags);
  }

  // ---------------------------------------------------------------------
  // Conversion
  // ---------------------------------------------------------------------

  /** No place before position `i` has the coordinates of the place at `i`. */
  predicate FirstAtItsCoordinates(places: seq<RawPlace>, i: int)
    requires 0 <= i < |places|
  {
    forall j :: 0 <= j < i ==> places[j].location != places[i].location
  }

  /** The places that get converted: an order-preserving subsequence of the
      input, all with geometry and a name, with pairwise distinct
      coordinates, in the order of their coordinates' first occurrences; a
      named place is kept exactly when no earlier place shares its
      coordinates. */
  lemma ConvertiblePlacesSpec(places: seq<RawPlace>)
    ensures IsSubsequence(ConvertiblePlaces(places), places)
    ensures forall k :: 0 <= k < |ConvertiblePlaces(places)| ==> Convertible(ConvertiblePlaces(places)[k])
    ensures forall a, b :: 0 <= a < b < |ConvertiblePlaces(places)| ==>
      ConvertiblePlaces(places)[a].location != ConvertiblePlaces(places)[b].location
    ensures forall i :: 0 <= i < |places| && Convertible(places[i]) && FirstAtItsCoordinates(places, i) ==>
              places[i] in ConvertiblePlaces(places)
    ensures forall k :: 0 <= k < |ConvertiblePlaces(places)| ==>
              exists i :: 0 <= i < |places| && places[i] == ConvertiblePlaces(places)[k] && FirstAtItsCoordinates(places, i)
    ensures forall a, b :: 0 <= a < b < |ConvertiblePlaces(places)| ==>
              FindIndex(places, Geometry, ConvertiblePlaces(places)[a].location)
                < FindIndex(places, Geometry, ConvertiblePlaces(places)[b].location)
  {
    ConvertiblePlacesShape(places);
    ConvertiblePlacesKeepsFirst(places);
    ConvertiblePlacesAreFirst(places);
    ConvertiblePlacesOrdered(places);
  }

  /** The converted places are an order-preserving subsequence of the input,
      all with geometry and a name, and pairwise distinct in coordinates. */
  lemma ConvertiblePlacesShape(places: seq<RawPlace>)
    ensures IsSubsequence(ConvertiblePlaces(places), places)
    ensures forall k :: 0 <= k < |ConvertiblePlaces(places)| ==> Convertible(ConvertiblePlaces(places)[k])
    ensures forall a, b :: 0 <= a < b < |ConvertiblePlaces(places)| ==>
      ConvertiblePlaces(places)[a].location != ConvertiblePlaces(places)[b].location
  {
    var kf := KeepFirst(places, Geometry);
    var u := UniqueByCoordinates(places);
    var cp := ConvertiblePlaces(places);
    KeepFirstSubsequence(places, Geometry);
    FilterSubsequence(kf, HasGeometry);
    FilterSubsequence(u, Convertible);
    SubsequenceTrans(u, kf, places);
    SubsequenceTrans(cp, u, places);
    KeepFirstDistinct(places, Geometry);
    SubsequenceTrans(cp, u, kf);
    SubsequenceDistinct(cp, kf, Geometry);
  }

  /** A named place with geometry that no earlier place shares coordinates
      with is converted. */
  lemma ConvertiblePlacesKeepsFirst(places: seq<RawPlace>)
    ensures forall i :: 0 <= i < |places| && Convertible(places[i]) && FirstAtItsCoordinates(places, i) ==>
              places[i] in ConvertiblePlaces(places)
  {
    var kf := KeepFirst(places, Geometry);
    var u := UniqueByCoordinates(places);
    forall i | 0 <= i < |places| && Convertible(places[i]) && FirstAtItsCoordinates(places, i)
      ensures places[i] in ConvertiblePlaces(places)
    {
      assert FindIndex(places, Geometry, Geometry(places[i])) == i;
      KeepFirstKeepsFirst(places, Geometry, i);
      var k :| 0 <= k < |kf| && kf[k] == places[i];
      assert HasGeometry(kf[k]);
      assert places[i] in u;
      var m :| 0 <= m < |u| && u[m] == places[i];
      assert Convertible(u[m]);
      assert u[m] in Filter(u, Convertible);
    }
  }

  /** Every converted place is the first place of the input at its
      coordinates, whether or not that place has a name. */
  lemma ConvertiblePlacesAreFirst(places: seq<RawPlace>)
    ensures forall k :: 0 <= k < |ConvertiblePlaces(places)| ==>
              exists i :: 0 <= i < |places| && places[i] == ConvertiblePlaces(places)[k] && FirstAtItsCoordinates(places, i)
  {
    var cp := ConvertiblePlaces(places);
    forall k | 0 <= k < |cp|
      ensures exists i :: 0 <= i < |places| && places[i] == cp[k] && FirstAtItsCoordinates(places, i)
    {
      ConvertedPlaceIsFirst(places, k);
    }
    assert forall k :: 0 <= k < |cp| ==> exists i :: 0 <= i < |places| && places[i] == cp[k] && FirstAtItsCoordinates(places, i);
  }

  /** The `k`-th converted place is the first place of the input with its
      coordinates. */
  lemma ConvertedPlaceIsFirst(places: seq<RawPlace>, k: int)
    requires 0 <= k < |ConvertiblePlaces(places)|
    ensures exists i :: 0 <= i < |places| && places[i] == ConvertiblePlaces(places)[k] && FirstAtItsCoordinates(places, i)
  {
    var kf := KeepFirst(places, Geometry);
    var u := UniqueByCoordinates(places);
    var cp := ConvertiblePlaces(places);
    KeepFirstAreFirst(places, Geometry);
    assert cp[k] in u;
    var m :| 0 <= m < |u| && u[m] == cp[k];
    assert u[m] in kf;
    var j :| 0 <= j < |kf| && kf[j] == cp[k];
    var i := FindIndex(places, Geometry, Geometry(kf[j]));
    assert 0 <= i < |places| && places[i] == cp[k] && FirstAtItsCoordinates(places, i);
  }

  /** The converted places come in the order of the first occurrences of
      their coordinates. */
  lemma ConvertiblePlacesOrdered(places: seq<RawPlace>)
    ensures forall a, b :: 0 <= a < b < |ConvertiblePlaces(places)| ==>
              FindIndex(places, Geometry, ConvertiblePlaces(places)[a].location)
                < FindIndex(places, Geometry, ConvertiblePlaces(places)[b].location)
  {
    var kf := KeepFirst(places, Geometry);
    var u := UniqueByCoordinates(places);
    var cp := ConvertiblePlaces(places);
    var first := (p: RawPlace) => FindIndex(places, Geometry, Geometry(p));
    KeepFirstOrdered(places, Geometry);
    assert forall i, j :: 0 <= i < j < |kf| ==> first(kf[i]) < first(kf[j]);
    FilterSubsequence(kf, HasGeometry);
    FilterSubsequence(u, Convertible);
    SubsequenceTrans(cp, u, kf);
    SubsequenceIncreasing(cp, kf, first);
  }

  /** The coordinate filter runs before the name filter: a nameless place
      hides a named place recorded later at the same coordinates, and
      neither is converted. */
  lemma NamelessPlaceShadowsNamedPlace(c: Coord, a: RawPlace, b: RawPlace)
    requires a.location == Some(c) && !HasName(a)
    requires b.location == Some(c) && HasName(b)
    ensures ConvertiblePlaces([a, b]) == []
  {
    var s := [a, b];
    assert s[..1] == [a];
    assert FindIndex([a], Geometry, Some(c)) == 0;
    assert KeepFirst([a], Geometry) == [a] by {
      assert [a][..0] == [];
    }
    assert FindIndex(s, Geometry, Some(c)) == 0;
    assert KeepFirst(s, Geometry) == [a];
    assert Filter([a], HasGeometry) == [a] by {
      assert [a][1..] == [];
    }
    assert Filter([a], Convertible) == [] by {
      assert [a][1..] == [];
    }
  }

  /** The Location made from one place with geometry and a name carries
      that place's coordinates, name, non-empty place id, category, rounded
      distance and non-empty vicinity. */
  lemma ToLocationFields(p: RawPlace, center: Coord, defaultCategory: Option<Category>,
                         distance: (Coord, Coord) -> real, fallbackId: RawPlace -> string)
    requires Convertible(p)
    ensures var l := ToLocation(p, center, defaultCategory, distance, fallbackId);
      && Some(l.coordinates) == p.location
      && Some(l.name) == p.name && l.name != ""
      && (p.placeId.Some? && p.placeId.value != "" ==> l.id == p.placeId.value)
      && l.category == CategoryFor(p.types, defaultCategory)
      && l.distance == Round(distance(center, l.coordinates))
      && (p.vicinity.Some? && p.vicinity.value != "" ==> l.address == p.vicinity)
      && ((p.vicinity.None? || p.vicinity.value == "") ==> l.address.None?)
  {
  }

  /** What each converted Location carries: the coordinates, name, place id
      (when one is present), category and rounded distance of the place it
      comes from, in the order of the converted places; the coordinates are
      pairwise distinct and the fallback name never appears. */
  lemma ConvertPlacesToLocationsSpec(places: seq<RawPlace>, center: Coord, defaultCategory: Option<Category>,
                                     distance: (Coord, Coord) -> real, fallbackId: RawPlace -> string)
    ensures var locs := ConvertPlacesToLocations(places, center, defaultCategory, distance, fallbackId);
      var kept := ConvertiblePlaces(places);
      && |locs| == |kept|
      && (forall k :: 0 <= k < |locs| ==>
            && Some(locs[k].coordinates) == kept[k].location
            && Some(locs[k].name) == kept[k].name && locs[k].name != ""
            && (kept[k].placeId.Some? && kept[k].placeId.value != "" ==> locs[k].id == kept[k].placeId.value)
            && locs[k].category == CategoryFor(kept[k].types, defaultCategory)
            && locs[k].distance == Round(distance(center, locs[k].coordinates))
            && (kept[k].vicinity.Some? && kept[k].vicinity.value != "" ==> locs[k].address == kept[k].vicinity)
            && ((kept[k].vicinity.None? || kept[k].vicinity.value == "") ==> locs[k].address.None?))
      && (forall a, b :: 0 <= a < b < |locs| ==> locs[a].coordinates != locs[b].coordinates)
  {
    var kept := ConvertiblePlaces(places);
    var locs := ConvertPlacesToLocations(places, center, defaultCategory, distance, fallbackId);
    ConvertiblePlacesSpec(places);
    forall k | 0 <= k < |locs|
      ensures locs[k] == ToLocation(kept[k], center, defaultCategory, distance, fallbackId)
      ensures Convertible(kept[k])
    {
    }
    forall k | 0 <= k < |locs|
      ensures && Some(locs[k].coordinates) == kept[k].location
              && Some(locs[k].name) == kept[k].name && locs[k].name != ""
              && (kept[k].placeId.Some? && kept[k].placeId.value != "" ==> locs[k].id == kept[k].placeId.value)
              && locs[k].category == CategoryFor(kept[k].types, defaultCategory)
              && locs[k].distance == Round(distance(center, locs[k].coordinates))
              && (kept[k].vicinity.Some? && kept[k].vicinity.value != "" ==> locs[k].address == kept[k].vicinity)
              && ((kept[k].vicinity.None? || kept[k].vicinity.value == "") ==> locs[k].address.None?)
    {
      ToLocationFields(kept[k], center, defaultCategory, distance, fallbackId);
    }
    forall a, b | 0 <= a < b < |locs|
      ensures locs[a].coordinates != locs[b].coordinates
    {
      assert kept[a].location != kept[b].location;
    }
  }

  // ---------------------------------------------------------------------
  // Betting group
  // ---------------------------------------------------------------------

  /** A single place converts to itself alone, or to nothing. */
  lemma ConvertSingle(p: RawPlace, center: Coord, defaultCategory: Option<Category>,
                      distance: (Coord, Coord) -> real, fallbackId: RawPlace -> string)
    ensures ConvertPlacesToLocations([p], center, defaultCategory, distance, fallbackId)
         == if Convertible(p) then [ToLocation(p, center, defaultCategory, distance, fallbackId)] else []
  {
    assert [p][..0] == [] && [p][1..] == [];
    assert FindIndex([p], Geometry, Geometry(p)) == 0;
    assert KeepFirst([p], Geometry) == [p];
    if HasGeometry(p) {
      assert UniqueByCoordinates([p]) == [p];
    } else {
      assert UniqueByCoordinates([p]) == [];
    }
  }

  /** Converting the places one by one is converting every convertible
      place, with no coordinate de-duplication between them. */
  lemma {:induction false} ConvertEachSpec(places: seq<RawPlace>, center: Coord,
                                           distance: (Coord, Coord) -> real, fallbackId: RawPlace -> string)
    ensures ConvertEachAsBetting(places, center, distance, fallbackId)
         == ToLocations(Filter(places, Convertible), center, Some(BettingShop), distance, fallbackId)
  {
    if places != [] {
      var p := places[0];
      ConvertSingle(p, center, Some(BettingShop), distance, fallbackId);
      ConvertEachSpec(places[1..], center, distance, fallbackId);
      var rest := Filter(places[1..], Convertible);
      if Convertible(p) {
        var l := [p] + rest;
        assert Filter(places, Convertible) == l;
        assert l[0] == p && l[1..] == rest;
      } else {
        assert Filter(places, Convertible) == rest;
      }
    }
  }

  /** The betting shops are the named places with geometry among those
      carrying a betting tag, each converted as a `betting_shop`, in order. */
  lemma BettingShopsAsMap(raw: seq<RawPlace>, center: Coord,
                          distance: (Coord, Coord) -> real, fallbackId: RawPlace -> string)
    ensures BettingShops(raw, center, distance, fallbackId)
         == ToLocations(Filter(Filter(raw, HasBettingTag), Convertible), center, Some(BettingShop), distance, fallbackId)
  {
    ConvertEachSpec(Filter(raw, HasBettingTag), center, distance, fallbackId);
  }

  /** Every betting shop is a `betting_shop` converted from a raw place that
      carries a betting tag. */
  lemma BettingShopsOrigin(raw: seq<RawPlace>, center: Coord,
                           distance: (Coord, Coord) -> real, fallbackId: RawPlace -> string)
    ensures forall k :: 0 <= k < |BettingShops(raw, center, distance, fallbackId)| ==>
              BettingShops(raw, center, distance, fallbackId)[k].category == BettingShop
    ensures forall k :: 0 <= k < |BettingShops(raw, center, distance, fallbackId)| ==>
              exists i :: 0 <= i < |raw| && HasBettingTag(raw[i]) && Convertible(raw[i]) &&
                BettingShops(raw, center, distance, fallbackId)[k]
                  == ToLocation(raw[i], center, Some(BettingShop), distance, fallbackId)
  {
    var tagged := Filter(raw, HasBettingTag);
    var conv := Filter(tagged, Convertible);
    var shops := BettingShops(raw, center, distance, fallbackId);
    BettingShopsAsMap(raw, center, distance, fallbackId);
    assert |shops| == |conv|;
    forall k | 0 <= k < |shops|
      ensures shops[k] == ToLocation(conv[k], center, Some(BettingShop), distance, fallbackId)
      ensures shops[k].category == BettingShop
    {
    }
    forall k | 0 <= k < |shops|
      ensures exists i :: 0 <= i < |raw| && HasBettingTag(raw[i]) && Convertible(raw[i]) &&
                shops[k] == ToLocation(raw[i], center, Some(BettingShop), distance, fallbackId)
    {
      var i := TaggedOrigin(raw, k);
      assert shops[k] == ToLocation(raw[i], center, Some(BettingShop), distance, fallbackId);
    }
  }

  /** A place that passes both betting filters is a raw place with a
      betting tag, geometry and a name. */
  lemma TaggedOrigin(raw: seq<RawPlace>, k: int) returns (i: int)
    requires 0 <= k < |Filter(Filter(raw, HasBettingTag), Convertible)|
    ensures 0 <= i < |raw| && HasBettingTag(raw[i]) && Convertible(raw[i])
    ensures raw[i] == Filter(Filter(raw, HasBettingTag), Convertible)[k]
  {
    var tagged := Filter(raw, HasBettingTag);
    var conv := Filter(tagged, Convertible);
    assert conv[k] in tagged && Convertible(conv[k]);
    var m :| 0 <= m < |tagged| && tagged[m] == conv[k];
    assert tagged[m] in raw && HasBettingTag(tagged[m]);
    i :| 0 <= i < |raw| && raw[i] == tagged[m];
  }

  /** Every named place with geometry carrying a betting tag yields a shop. */
  lemma BettingShopsComplete(raw: seq<RawPlace>, center: Coord,
                             distance: (Coord, Coord) -> real, fallbackId: RawPlace -> string)
    ensures forall i :: 0 <= i < |raw| && HasBettingTag(raw[i]) && Convertible(raw[i]) ==>
              ToLocation(raw[i], center, Some(BettingShop), distance, fallbackId)
                in BettingShops(raw, center, distance, fallbackId)
  {
    var tagged := Filter(raw, HasBettingTag);
    var conv := Filter(tagged, Convertible);
    var shops := BettingShops(raw, center, distance, fallbackId);
    BettingShopsAsMap(raw, center, distance, fallbackId);
    forall i | 0 <= i < |raw| && HasBettingTag(raw[i]) && Convertible(raw[i])
      ensures ToLocation(raw[i], center, Some(BettingShop), distance, fallbackId) in shops
    {
      assert raw[i] in tagged;
      var m :| 0 <= m < |tagged| && tagged[m] == raw[i];
      assert raw[i] in conv;
      var k :| 0 <= k < |conv| && conv[k] == raw[i];
      assert shops[k] == ToLocation(raw[i], center, Some(BettingShop), distance, fallbackId);
    }
  }

  /** Two betting places at the same coordinates both become betting shops:
      the betting group has no coordinate de-duplication. */
  lemma BettingShopsMayShareCoordinates(c: Coord, center: Coord,
                                        distance: (Coord, Coord) -> real, fallbackId: RawPlace -> string)
    ensures var p1 := RawPlace(Some("a"), Some("Sala A"), Some(c), Some(["casino"]), None);
      var p2 := RawPlace(Some("b"), Some("Sala B"), Some(c), Some(["gambling"]), None);
      var shops := BettingShops([p1, p2], center, distance, fallbackId);
      |shops| == 2 && shops[0].coordinates == shops[1].coordinates == c && shops[0].id != shops[1].id
  {
    var p1 := RawPlace(Some("a"), Some("Sala A"), Some(c), Some(["casino"]), None);
    var p2 := RawPlace(Some("b"), Some("Sala B"), Some(c), Some(["gambling"]), None);
    var raw := [p1, p2];
    assert HasBettingTag(p1) by { assert p1.types.value[0] in BettingTypesToSearch; }
    assert HasBettingTag(p2) by { assert p2.types.value[0] in BettingTypesToSearch; }
    FilterAll(raw, HasBettingTag);
    FilterAll(raw, Convertible);
    ConvertEachSpec(raw, center, distance, fallbackId);
  }

  // ---------------------------------------------------------------------
  // The assembled result
  // ---------------------------------------------------------------------

  /** The exclusion keeps, in order, exactly the sensitive entries whose
      coordinates match no betting shop, so no coordinate pair is left in
      both lists. */
  lemma ExcludeBettingCoordinatesSpec(sensitive: seq<Location>, betting: seq<Location>)
    ensures IsSubsequence(ExcludeBettingCoordinates(sensitive, betting), sensitive)
    ensures forall k :: 0 <= k < |sensitive| ==>
              (sensitive[k] in ExcludeBettingCoordinates(sensitive, betting) <==> !SharesCoordinates(sensitive[k], betting))
    ensures forall i, j :: 0 <= i < |ExcludeBettingCoordinates(sensitive, betting)| && 0 <= j < |betting| ==>
              ExcludeBettingCoordinates(sensitive, betting)[i].coordinates != betting[j].coordinates
    ensures forall x :: multiset(ExcludeBettingCoordinates(sensitive, betting))[x]
                     == if SharesCoordinates(x, betting) then 0 else multiset(sensitive)[x]
  {
    var keep := (l: Location) => !SharesCoordinates(l, betting);
    var unique := ExcludeBettingCoordinates(sensitive, betting);
    FilterSubsequence(sensitive, keep);
    FilterMultiset(sensitive, keep);
    forall i, j | 0 <= i < |unique| && 0 <= j < |betting|
      ensures unique[i].coordinates != betting[j].coordinates
    {
      assert keep(unique[i]);
    }
  }

  /** The final result: the betting shops are passed through; the sensitive
      places are exactly the converted sensitive places, in order, whose
      coordinates match no betting shop; no coordinate pair is in both lists;
      the total is the sum of the two lengths. */
  lemma BuildResultSpec(sensitiveRaw: seq<RawPlace>, bettingRaw: seq<RawPlace>, center: Coord,
                        distance: (Coord, Coord) -> real, fallbackId: RawPlace -> string)
    ensures var res := BuildResult(sensitiveRaw, bettingRaw, center, distance, fallbackId);
      var conv := ConvertPlacesToLocations(sensitiveRaw, center, None, distance, fallbackId);
      && res.bettingShops == BettingShops(bettingRaw, center, distance, fallbackId)
      && IsSubsequence(res.sensitivePlaces, conv)
      && (forall k :: 0 <= k < |conv| ==>
            (conv[k] in res.sensitivePlaces <==> !SharesCoordinates(conv[k], res.bettingShops)))
      && (forall i, j :: 0 <= i < |res.sensitivePlaces| && 0 <= j < |res.bettingShops| ==>
            res.sensitivePlaces[i].coordinates != res.bettingShops[j].coordinates)
      && res.totalCount == |res.sensitivePlaces| + |res.bettingShops|
  {
    var conv := ConvertPlacesToLocations(sensitiveRaw, center, None, distance, fallbackId);
    var betting := BettingShops(bettingRaw, center, distance, fallbackId);
    ExcludeBettingCoordinatesSpec(conv, betting);
  }

  /** The whole search fails exactly when some query of either group is
      rejected; otherwise its result is built from the two de-duplicated
      concatenations. */
  lemma NearbyPlacesSpec(provider: Provider, center: Coord, radius: int,
                         distance: (Coord, Coord) -> real, fallbackId: RawPlace -> string)
    ensures NearbyPlaces(provider, center, radius, distance, fallbackId).Failure? <==>
      (exists i :: 0 <= i < |SensitiveTypesToSearch| && Rejects(Query(provider, center, radius, SensitiveTypesToSearch[i])))
      || (exists i :: 0 <= i < |BettingTypesToSearch| && Rejects(Query(provider, center, radius, BettingTypesToSearch[i])))
    ensures NearbyPlaces(provider, center, radius, distance, fallbackId).Success? ==>
      NearbyPlaces(provider, center, radius, distance, fallbackId).value == BuildResult(
        DedupById(Appended(provider, center, radius, SensitiveTypesToSearch)),
        DedupById(Appended(provider, center, radius, BettingTypesToSearch)),
        center, distance, fallbackId)
  {
    SearchGroupSpec(provider, center, radius, SensitiveTypesToSearch);
    SearchGroupSpec(provider, center, radius, BettingTypesToSearch);
  }
}
