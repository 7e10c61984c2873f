/** frontend/src/components/policies/policy-filters.tsx: the filter panel's
    transitions. Each handler hands the parent a new filters record; the
    category "all" stands for no category. */
module PolicyFilterPanel {
  import opened Wrappers

  /** The panel's `PolicyFilters`, as frontend/src/types/policy.ts declares it. */
  datatype FilterType = FilterType(search: Option<string>, category: Option<string>, page: Option<int>, limit: Option<int>)

  const AllCategories := "all"

  /** `filters.category && filters.category !== 'all'` */
  predicate HasActiveFilters(f: FilterType) {
    f.category.Some? && f.category.value != "" && f.category.value != AllCategories
  }

  /** `filters.category || 'all'`: what the select shows. */
  function SelectValue(f: FilterType): (v: string)
    ensures v == AllCategories <==> !HasActiveFilters(f)
    ensures HasActiveFilters(f) ==> v == f.category.value
  {
    if f.category.Some? && f.category.value != "" then f.category.value else AllCategories
  }

  /** `handleCategoryChange`: "all" clears the category, any other choice is
      stored; the list goes back to page 1 and the rest is kept. */
  function CategoryChange(f: FilterType, category: string): (g: FilterType)
    ensures g.page == Some(1) && g.search == f.search && g.limit == f.limit
    ensures category == AllCategories ==> g.category.None?
    ensures category != AllCategories ==> g.category == Some(category)
    ensures HasActiveFilters(g) <==> category != AllCategories && category != ""
  {
    f.(category := if category == AllCategories then None else Some(category), page := Some(1))
  }

  /** `clearFilters`: only the search and page 1 survive; category and limit
      are dropped. */
  function ClearFilters(f: FilterType): (g: FilterType)
    ensures g.search == f.search && g.page == Some(1)
    ensures g.category.None? && g.limit.None?
    ensures !HasActiveFilters(g) && SelectValue(g) == AllCategories
  {
    FilterType(f.search, None, Some(1), None)
  }

  /** `handleRefresh`: a copy of the current filters. */
  function Refresh(f: FilterType): (g: FilterType)
    ensures g == f
  {
    f
  }

  /** Clearing twice is clearing once, and choosing "all" clears the category
      just as the clear button does, keeping the limit. */
  lemma ClearIsIdempotent(f: FilterType)
    ensures ClearFilters(ClearFilters(f)) == ClearFilters(f)
    ensures CategoryChange(f, AllCategories) == ClearFilters(f).(limit := f.limit)
  {
  }

  /** Choosing a category and then reading the select gives that category back. */
  lemma SelectShowsChoice(f: FilterType, category: string)
    requires category != ""
    ensures SelectValue(CategoryChange(f, category)) == category
  {
  }
}
