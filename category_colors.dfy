/** The colour palette of the eight built-in category names
    (lib/constants/category-colors.ts): a Tailwind background class, a text
    class and a hex fill per name, looked up with a fallback to Food. */
module CategoryColors {

  datatype CategoryColor = CategoryColor(bg: string, text: string, fill: string)

  /** The `CategoryType` names, in declaration order. */
  const CATEGORY_NAMES: seq<string> :=
    ["Food", "Transport", "Housing", "Entertainment", "Health", "Shopping", "Bills", "Other"]

  /** `CATEGORY_COLORS`. */
  const CATEGORY_COLORS: map<string, CategoryColor> := map[
    "Food" := CategoryColor("bg-orange-100", "text-orange-600", "#f97316"),
    "Transport" := CategoryColor("bg-blue-100", "text-blue-600", "#3b82f6"),
    "Housing" := CategoryColor("bg-amber-100", "text-amber-600", "#d97706"),
    "Entertainment" := CategoryColor("bg-purple-100", "text-purple-600", "#a855f7"),
    "Health" := CategoryColor("bg-green-100", "text-green-600", "#10b981"),
    "Shopping" := CategoryColor("bg-pink-100", "text-pink-600", "#ec4899"),
    "Bills" := CategoryColor("bg-red-100", "text-red-600", "#ef4444"),
    "Other" := CategoryColor("bg-slate-100", "text-slate-600", "#64748b")
  ]

  /** The fill of the fallback entry. */
  const FOOD_FILL: string := "#f97316"

  /** The table entry of a known name, and the Food entry for any other. */
  function GetCategoryColor(category: string): (c: CategoryColor)
    ensures category in CATEGORY_NAMES ==> c == CATEGORY_COLORS[category]
    ensures category !in CATEGORY_NAMES ==> c == CATEGORY_COLORS["Food"]
  {
    if category in CATEGORY_COLORS then CATEGORY_COLORS[category] else CATEGORY_COLORS["Food"]
  }

  /** The hex fill of `GetCategoryColor`. */
  function GetCategoryHexColor(category: string): (h: string)
    ensures h == GetCategoryColor(category).fill
  {
    GetCategoryColor(category).fill
  }

  /** `Object.keys(CATEGORY_COLORS)`: the eight names in declaration order. */
  function GetCategories(): (r: seq<string>)
    ensures |r| == 8 && r[0] == "Food" && r[1] == "Transport" && r[2] == "Housing" && r[3] == "Entertainment" &&
            r[4] == "Health" && r[5] == "Shopping" && r[6] == "Bills" && r[7] == "Other"
    ensures forall name :: name in r <==> name in CATEGORY_COLORS
    ensures forall i, j :: 0 <= i < j < |r| ==> r[i] != r[j]
  {
    CATEGORY_NAMES
  }

  /** No two names share a fill. */
  lemma FillsDistinct(a: string, b: string)
    requires a in CATEGORY_NAMES && b in CATEGORY_NAMES && a != b
    ensures CATEGORY_COLORS[a].fill != CATEGORY_COLORS[b].fill
  {
  }

  /** The hex is Food's orange exactly for "Food" and for names outside the palette. */
  lemma FoodFillExactly(category: string)
    ensures GetCategoryHexColor(category) == FOOD_FILL <==>
            category == "Food" || category !in CATEGORY_NAMES
  {
  }
}
