/** getCategoryInfo (src/utils/categoryUtils.ts): display information for a
    category, with the `other` record as the fallback for any key the table
    does not have. */
module CategoryUtils {
  import opened Types

  /** The source's `label` field is `labelText` here: `label` is a Dafny keyword. */
  datatype CategoryInfo = CategoryInfo(labelText: string, color: string, icon: string)

  /** The table the lookup builds on every call, keyed by each category's
      run-time name. */
  function CategoryMap(): map<string, CategoryInfo> {
    map[
      "school" := CategoryInfo("Scuola", "#3949AB", "school"),
      "church" := CategoryInfo("Chiesa", "#7B1FA2", "church"),
      "hospital" := CategoryInfo("Ospedale", "#D32F2F", "hospital"),
      "youth_center" := CategoryInfo("Centro giovanile", "#00897B", "users"),
      "nursing_home" := CategoryInfo("RSA", "#FFA000", "home"),
      "betting_shop" := CategoryInfo("Sala scommesse", "#E53935", "dollar"),
      "other" := CategoryInfo("Altro", "#607D8B", "map-pin")
    ]
  }

  /** The record for `key`, or the `other` record when the table has none:
      always one of the seven records. */
  function GetCategoryInfo(key: string): (info: CategoryInfo)
    ensures info in CategoryMap().Values
    ensures key in CategoryMap() ==> info == CategoryMap()[key]
  {
    if key in CategoryMap() then CategoryMap()[key] else CategoryMap()["other"]
  }

  /** The table has no key besides the seven category names. */
  lemma TableKeysAreCategoryNames(key: string)
    requires key in CategoryMap()
    ensures exists c: Category :: CategoryName(c) == key
  {
    if key == "school" { assert CategoryName(School) == key; }
    else if key == "church" { assert CategoryName(Church) == key; }
    else if key == "hospital" { assert CategoryName(Hospital) == key; }
    else if key == "youth_center" { assert CategoryName(YouthCenter) == key; }
    else if key == "nursing_home" { assert CategoryName(NursingHome) == key; }
    else if key == "betting_shop" { assert CategoryName(BettingShop) == key; }
    else { assert CategoryName(Other) == key; }
  }

  /** Every category has its own entry. */
  lemma GetCategoryInfoDefined(c: Category)
    ensures CategoryName(c) in CategoryMap()
    ensures GetCategoryInfo(CategoryName(c)) == CategoryMap()[CategoryName(c)]
  {
  }

  /** Any key outside the table gets the same record as `other`. */
  lemma GetCategoryInfoFallback(key: string)
    requires key !in CategoryMap()
    ensures GetCategoryInfo(key) == GetCategoryInfo(CategoryName(Other))
  {
  }

  /** The seven labels are pairwise distinct, so a label identifies its category. */
  lemma LabelsIdentifyCategory(c: Category, d: Category)
    ensures GetCategoryInfo(CategoryName(c)).labelText == GetCategoryInfo(CategoryName(d)).labelText ==> c == d
  {
  }
}
