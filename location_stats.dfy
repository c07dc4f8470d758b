/** The summary LocationStats derives from the two result lists
    (src/components/LocationStats.tsx): per-category counts, the totals and
    the categories with at least one place. */
module LocationStats {
  import opened Sequences
  import opened Types

  /** The number of entries of `s` in category `c`. */
  function CountIn(s: seq<Location>, c: Category): nat
    decreases |s|
  {
    if s == [] then 0
    else CountIn(s[..|s| - 1], c) + (if s[|s| - 1].category == c then 1 else 0)
  }

  lemma {:induction false} CountInConcat(a: seq<Location>, b: seq<Location>, c: Category)
    ensures CountIn(a + b, c) == CountIn(a, c) + CountIn(b, c)
    decreases |b|
  {
    if b == [] {
      assert a + b == a;
    } else {
      var n := |b| - 1;
      assert a + b == (a + b[..n]) + [b[n]];
      assert (a + b)[..|a + b| - 1] == a + b[..n];
      CountInConcat(a, b[..n], c);
    }
  }

  /** The categoryCounts record after both `forEach` loops. */
  method TallyCategories(sensitive: seq<Location>, betting: seq<Location>) returns (counts: map<Category, nat>)
    ensures forall c: Category :: c in counts && counts[c] == CountIn(sensitive + betting, c)
  {
    counts := map[School := 0, Church := 0, Hospital := 0, YouthCenter := 0,
                  NursingHome := 0, BettingShop := 0, Other := 0];
    forall c: Category ensures c in counts && counts[c] == 0 {
      match c
      case School => case Church => case Hospital => case YouthCenter =>
      case NursingHome => case BettingShop => case Other =>
    }
    assert sensitive[..0] == [];
    for i := 0 to |sensitive|
      invariant forall c: Category :: c in counts && counts[c] == CountIn(sensitive[..i], c)
    {
      assert sensitive[..i + 1][..i] == sensitive[..i];
      var c := sensitive[i].category;
      counts := counts[c := counts[c] + 1];
    }
    assert sensitive[..|sensitive|] == sensitive;
    assert betting[..0] == [];
    for i := 0 to |betting|
      invariant forall c: Category :: c in counts && counts[c] == CountIn(sensitive, c) + CountIn(betting[..i], c)
    {
      assert betting[..i + 1][..i] == betting[..i];
      var c := betting[i].category;
      counts := counts[c := counts[c] + 1];
    }
    assert betting[..|betting|] == betting;
    forall c: Category ensures CountIn(sensitive + betting, c) == CountIn(sensitive, c) + CountIn(betting, c) {
      CountInConcat(sensitive, betting, c);
    }
  }

  /** The sum of the seven counts. */
  function SumOfCounts(counts: map<Category, nat>): nat
    requires forall c: Category :: c in counts
  {
    counts[School] + counts[Church] + counts[Hospital] + counts[YouthCenter]
    + counts[NursingHome] + counts[BettingShop] + counts[Other]
  }

  /** totalSensitivePlaces: sensitive entries outside the `other` category. */
  function TotalSensitivePlaces(sensitive: seq<Location>): nat {
    |Filter(sensitive, (l: Location) => l.category != Other)|
  }

  /** activeCategories: the categories with a positive count, in key order. */
  function ActiveCategories(counts: map<Category, nat>): seq<Category> {
    Filter(AllCategories, ActiveIn(counts))
  }

  function ActiveIn(counts: map<Category, nat>): Category -> bool {
    (c: Category) => c in counts && counts[c] > 0
  }

  /** What the component shows besides the percentage bars. */
  datatype Summary = Summary(
    counts: map<Category, nat>,
    totalSensitivePlaces: nat,
    totalBettingShops: nat,
    totalPlaces: nat,
    activeCategories: seq<Category>)

  /** Every entry falls in exactly one category, so the counts add up to
      the number of entries. */
  lemma {:induction false} CountsAddUp(s: seq<Location>)
    ensures CountIn(s, School) + CountIn(s, Church) + CountIn(s, Hospital) + CountIn(s, YouthCenter)
          + CountIn(s, NursingHome) + CountIn(s, BettingShop) + CountIn(s, Other) == |s|
    decreases |s|
  {
    if s != [] {
      CountsAddUp(s[..|s| - 1]);
    }
  }

  /** The sensitive total leaves out exactly the `other` entries. */
  lemma {:induction false} TotalSensitiveExcludesOther(sensitive: seq<Location>)
    ensures TotalSensitivePlaces(sensitive) == |sensitive| - CountIn(sensitive, Other)
    decreases |sensitive|
  {
    if sensitive != [] {
      var n := |sensitive| - 1;
      var init := sensitive[..n];
      assert sensitive == init + [sensitive[n]];
      FilterConcat(init, [sensitive[n]], (l: Location) => l.category != Other);
      assert [sensitive[n]][1..] == [];
      TotalSensitiveExcludesOther(init);
    }
  }

  /** A category is active exactly when its count is positive, and the
      active categories keep the key order. */
  lemma ActiveCategoriesSpec(counts: map<Category, nat>)
    requires forall c: Category :: c in counts
    ensures forall c: Category :: c in ActiveCategories(counts) <==> counts[c] > 0
    ensures IsSubsequence(ActiveCategories(counts), AllCategories)
  {
    FilterSubsequence(AllCategories, ActiveIn(counts));
    forall c: Category ensures c in ActiveCategories(counts) <==> counts[c] > 0 {
      AllCategoriesComplete(c);
    }
  }

  /** The component's derivation: the tally, then the totals and the active
      categories. */
  method Summarize(sensitive: seq<Location>, betting: seq<Location>) returns (summary: Summary)
    ensures forall c: Category :: c in summary.counts && summary.counts[c] == CountIn(sensitive + betting, c)
    ensures SumOfCounts(summary.counts) == |sensitive| + |betting|
    ensures summary.totalSensitivePlaces == |sensitive| - CountIn(sensitive, Other)
    ensures summary.totalBettingShops == |betting|
    ensures summary.totalPlaces == summary.totalSensitivePlaces + summary.totalBettingShops
    ensures summary.totalPlaces == SumOfCounts(summary.counts) - CountIn(sensitive, Other) <= SumOfCounts(summary.counts)
    ensures forall c: Category :: c in summary.activeCategories <==> summary.counts[c] > 0
    ensures IsSubsequence(summary.activeCategories, AllCategories)
  {
    var counts := TallyCategories(sensitive, betting);
    var totalSensitive := TotalSensitivePlaces(sensitive);
    var totalBetting := |betting|;
    summary := Summary(counts, totalSensitive, totalBetting, totalSensitive + totalBetting, ActiveCategories(counts));
    CountsAddUp(sensitive + betting);
    TotalSensitiveExcludesOther(sensitive);
    ActiveCategoriesSpec(counts);
  }
}
