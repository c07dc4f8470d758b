/** The list view's derivation (src/components/LocationsList.tsx): both
    result lists together, the category filter, the sort by distance and the
    choice between the empty prompt, the spinner and the list. */
module LocationsList {
  import opened Wrappers
  import opened Sequences
  import opened Types

  /** The value of the filter selector. */
  datatype CategoryFilter = All | Only(category: Category)

  /** allLocations. */
  function AllLocations(sensitive: seq<Location>, betting: seq<Location>): seq<Location> {
    sensitive + betting
  }

  /** filteredLocations. */
  function FilteredLocations(all: seq<Location>, filter: CategoryFilter): seq<Location> {
    match filter
    case All => all
    case Only(c) => Filter(all, (l: Location) => l.category == c)
  }

  /** Places `x` before the first entry that is at least as far; an entry
      at the same distance that came later stays after it. */
  function Insert(x: Location, s: seq<Location>): seq<Location> {
    if s == [] || x.distance <= s[0].distance then [x] + s
    else [s[0]] + Insert(x, s[1..])
  }

  /** The stable sort by distance applied to the copy of filteredLocations. */
  function SortByDistance(s: seq<Location>): seq<Location> {
    if s == [] then [] else Insert(s[0], SortByDistance(s[1..]))
  }

  ghost predicate SortedByDistance(s: seq<Location>) {
    forall i, j :: 0 <= i < j < |s| ==> s[i].distance <= s[j].distance
  }

  /** The entries of `s` at distance `d`, in their order. */
  function AtDistance(s: seq<Location>, d: int): seq<Location> {
    if s == [] then []
    else (if s[0].distance == d then [s[0]] else []) + AtDistance(s[1..], d)
  }

  lemma {:induction false} InsertPermutes(x: Location, s: seq<Location>)
    ensures multiset(Insert(x, s)) == multiset(s) + multiset{x}
  {
    if s != [] && x.distance > s[0].distance {
      InsertPermutes(x, s[1..]);
      assert s == [s[0]] + s[1..];
    }
  }

  lemma {:induction false} InsertSorted(x: Location, s: seq<Location>)
    requires SortedByDistance(s)
    ensures SortedByDistance(Insert(x, s))
  {
    if s != [] && x.distance > s[0].distance {
      var rest := Insert(x, s[1..]);
      InsertSorted(x, s[1..]);
      InsertPermutes(x, s[1..]);
      forall i | 0 <= i < |rest| ensures s[0].distance <= rest[i].distance {
        assert rest[i] in multiset(rest);
        assert rest[i] == x || rest[i] in multiset(s[1..]);
      }
      assert Insert(x, s) == [s[0]] + rest;
    }
  }

  lemma {:induction false} AtDistanceConcat(a: seq<Location>, b: seq<Location>, d: int)
    ensures AtDistance(a + b, d) == AtDistance(a, d) + AtDistance(b, d)
  {
    if a == [] {
      assert a + b == b;
    } else {
      var h := if a[0].distance == d then [a[0]] else [];
      assert (a + b)[0] == a[0] && (a + b)[1..] == a[1..] + b;
      assert AtDistance(a + b, d) == h + AtDistance(a[1..] + b, d);
      AtDistanceConcat(a[1..], b, d);
      assert AtDistance(a, d) == h + AtDistance(a[1..], d);
    }
  }

  lemma AtDistanceSingle(y: Location, d: int)
    ensures AtDistance([y], d) == if y.distance == d then [y] else []
  {
    assert [y][1..] == [];
  }

  /** Inserting keeps the relative order of the entries at each distance. */
  lemma {:induction false} InsertStable(x: Location, s: seq<Location>, d: int)
    ensures AtDistance(Insert(x, s), d) == AtDistance([x], d) + AtDistance(s, d)
  {
    if s == [] || x.distance <= s[0].distance {
      assert Insert(x, s) == [x] + s;
      AtDistanceConcat([x], s, d);
    } else {
      var y, tail := s[0], s[1..];
      var rest := Insert(x, tail);
      InsertStable(x, tail, d);
      assert Insert(x, s) == [y] + rest;
      assert s == [y] + tail;
      AtDistanceConcat([y], rest, d);
      AtDistanceConcat([y], tail, d);
      AtDistanceSingle(x, d);
      AtDistanceSingle(y, d);
      if y.distance == d {
        // x is farther than y, so it is not at distance d
        assert AtDistance([x], d) == [];
      } else {
        assert AtDistance([y], d) == [];
      }
    }
  }

  /** The sorted list is a permutation of its input, ordered by
      non-decreasing distance, and entries at equal distance keep their
      relative order. */
  lemma {:induction false} SortByDistanceSpec(s: seq<Location>)
    ensures SortedByDistance(SortByDistance(s))
    ensures multiset(SortByDistance(s)) == multiset(s)
    ensures forall d :: AtDistance(SortByDistance(s), d) == AtDistance(s, d)
  {
    if s != [] {
      SortByDistanceSpec(s[1..]);
      InsertSorted(s[0], SortByDistance(s[1..]));
      InsertPermutes(s[0], SortByDistance(s[1..]));
      assert s == [s[0]] + s[1..];
      forall d ensures AtDistance(SortByDistance(s), d) == AtDistance(s, d) {
        InsertStable(s[0], SortByDistance(s[1..]), d);
        AtDistanceConcat([s[0]], s[1..], d);
      }
    }
  }

  /** The filter `all` changes nothing; a category filter keeps, in order,
      exactly the entries of that category, every copy of each. */
  lemma FilteredLocationsSpec(all: seq<Location>, filter: CategoryFilter)
    ensures filter == All ==> FilteredLocations(all, filter) == all
    ensures filter.Only? ==> IsSubsequence(FilteredLocations(all, filter), all)
    ensures filter.Only? ==> forall k :: 0 <= k < |FilteredLocations(all, filter)| ==>
              FilteredLocations(all, filter)[k].category == filter.category
    ensures filter.Only? ==> forall i :: 0 <= i < |all| && all[i].category == filter.category ==>
              all[i] in FilteredLocations(all, filter)
    ensures filter.Only? ==> forall x :: multiset(FilteredLocations(all, filter))[x]
                                      == if x.category == filter.category then multiset(all)[x] else 0
  {
    if filter.Only? {
      FilterSubsequence(all, (l: Location) => l.category == filter.category);
      FilterMultiset(all, (l: Location) => l.category == filter.category);
    }
  }

  /** What the component renders. */
  datatype View =
    | EmptyPrompt
    | Spinner
    | Listing(headerCount: nat, items: seq<Location>, showsNoMatches: bool)

  function ChooseView(center: Option<Coord>, isLoading: bool, sensitive: seq<Location>,
                      betting: seq<Location>, filter: CategoryFilter): View
  {
    var all := AllLocations(sensitive, betting);
    var sorted := SortByDistance(FilteredLocations(all, filter));
    if center.None? && !isLoading then EmptyPrompt
    else if isLoading then Spinner
    else Listing(|all|, sorted, |sorted| == 0)
  }

  /** No center and not loading shows the prompt; loading always shows the
      spinner; otherwise the list of both result lists' entries, counted in
      the header, sorted, with the "no places" message exactly when the
      filtered list is empty. */
  lemma ChooseViewSpec(center: Option<Coord>, isLoading: bool, sensitive: seq<Location>,
                       betting: seq<Location>, filter: CategoryFilter)
    ensures ChooseView(center, isLoading, sensitive, betting, filter) == EmptyPrompt <==> center.None? && !isLoading
    ensures ChooseView(center, isLoading, sensitive, betting, filter) == Spinner <==> isLoading
    ensures center.Some? && !isLoading ==>
      var v := ChooseView(center, isLoading, sensitive, betting, filter);
      var filtered := FilteredLocations(AllLocations(sensitive, betting), filter);
      && v.Listing?
      && v.headerCount == |sensitive| + |betting|
      && SortedByDistance(v.items)
      && multiset(v.items) == multiset(filtered)
      && (v.showsNoMatches <==> filtered == [])
  {
    SortByDistanceSpec(FilteredLocations(AllLocations(sensitive, betting), filter));
  }
}
