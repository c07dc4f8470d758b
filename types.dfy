/** The value types shared by the place service and the views: a classified
    `Location`, the closed `LocationCategory` taxonomy and the `SearchResult`
    envelope (src/types/index.ts). */
module Types {
  import opened Wrappers

  /** The seven categories, declared in the order the source lists them. */
  datatype Category = School | Church | Hospital | YouthCenter | NursingHome | BettingShop | Other

  /** Every category, in the key order of the source's category records. */
  const AllCategories: seq<Category> :=
    [School, Church, Hospital, YouthCenter, NursingHome, BettingShop, Other]

  /** The string the source uses for each category at run time. */
  function CategoryName(c: Category): string {
    match c
    case School => "school"
    case Church => "church"
    case Hospital => "hospital"
    case YouthCenter => "youth_center"
    case NursingHome => "nursing_home"
    case BettingShop => "betting_shop"
    case Other => "other"
  }

  /** A (latitude, longitude) pair. Only equality of pairs is ever used on
      them besides the distance, so the two numbers are kept abstract as reals. */
  datatype Coord = Coord(lat: real, lng: real)

  datatype Location = Location(
    id: string,
    name: string,
    category: Category,
    coordinates: Coord,
    distance: int,
    address: Option<string>)

  datatype SearchResult = SearchResult(
    sensitivePlaces: seq<Location>,
    bettingShops: seq<Location>,
    totalCount: nat)

  /** Each category occurs exactly once in `AllCategories`. */
  lemma AllCategoriesComplete(c: Category)
    ensures c in AllCategories
    ensures forall i, j :: 0 <= i < j < |AllCategories| ==> AllCategories[i] != AllCategories[j]
  {
  }

  /** Distinct categories have distinct run-time names. */
  lemma CategoryNameInjective(c: Category, d: Category)
    ensures CategoryName(c) == CategoryName(d) ==> c == d
  {
  }
}
