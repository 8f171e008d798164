/** The reference-data hooks (hooks/use-reference-data.ts): the category
    list sorted by `sort_order`, and the subcategories of the selected
    category, sorted the same way. */
module ReferenceHooks {
  import opened Wrappers
  import opened Seqs
  import opened Records
  import opened LocalDb

  /** The category list: every stored category, by `sort_order` (a missing
      one counting as 0), ties in key order. */
  function SortedCategories(m: map<int, Category>): seq<Category>
  {
    SortByKey(Rows(m), CategorySortKey)
  }

  /** The subcategory list of `categoryId`: the stored subcategories with
      that `category_id`, by `sort_order`, ties in key order. */
  function SubCategoriesOf(m: map<int, SubCategory>, categoryId: int): seq<SubCategory>
  {
    SortByKey(Filter(Rows(m), InCategory(categoryId)), SubCategorySortKey)
  }

  /** The rows of a table whose records sit under their own ids come in
      strictly increasing id order. */
  lemma CategoryRowsIncreasing(m: map<int, Category>)
    requires forall k :: k in m ==> m[k].id == k
    ensures IncreasingBy(Rows(m), CategoryId)
  {
    forall i, j | 0 <= i < j < |Rows(m)| ensures CategoryId(Rows(m)[i]) < CategoryId(Rows(m)[j]) {
      RowsAt(m, i);
      RowsAt(m, j);
    }
  }

  lemma SubCategoryRowsIncreasing(m: map<int, SubCategory>)
    requires forall k :: k in m ==> m[k].id == k
    ensures IncreasingBy(Rows(m), SubCategoryIdOf)
  {
    forall i, j | 0 <= i < j < |Rows(m)| ensures SubCategoryIdOf(Rows(m)[i]) < SubCategoryIdOf(Rows(m)[j]) {
      RowsAt(m, i);
      RowsAt(m, j);
    }
  }

  /** The category list is a permutation of all stored categories. */
  lemma SortedCategoriesPermutation(m: map<int, Category>)
    requires forall k :: k in m ==> m[k].id == k
    ensures multiset(SortedCategories(m)) == multiset(Rows(m))
    ensures |SortedCategories(m)| == |m|
    ensures forall k :: k in m ==> m[k] in SortedCategories(m)
    ensures forall c :: c in SortedCategories(m) ==> c.id in m && m[c.id] == c
  {
    var rows := Rows(m);
    var r := SortedCategories(m);
    SortByKeyFacts(rows, CategorySortKey);
    SameMembers(r, rows);
    RowsAreValues(m);
    forall c | c in r ensures c.id in m && m[c.id] == c {
      var k :| k in m && m[k] == c;
    }
  }

  /** The category list is sorted by `sort_order`; categories sharing a
      `sort_order` keep their store order, which is ascending id. */
  lemma SortedCategoriesOrder(m: map<int, Category>)
    requires forall k :: k in m ==> m[k].id == k
    ensures SortedByKey(SortedCategories(m), CategorySortKey)
    ensures forall o :: WithKey(SortedCategories(m), CategorySortKey, o) == WithKey(Rows(m), CategorySortKey, o)
    ensures forall o :: IncreasingBy(WithKey(SortedCategories(m), CategorySortKey, o), CategoryId)
  {
    SortByKeyFacts(Rows(m), CategorySortKey);
    CategoryRowsIncreasing(m);
    SortKeepsTiesIncreasing(Rows(m), CategorySortKey, CategoryId);
  }

  /** The subcategory list holds exactly the stored subcategories of
      `categoryId`, each as often as in the store's index. */
  lemma SubCategoriesOfMembers(m: map<int, SubCategory>, categoryId: int)
    requires forall k :: k in m ==> m[k].id == k
    ensures multiset(SubCategoriesOf(m, categoryId)) ==
            multiset(Filter(Rows(m), InCategory(categoryId)))
    ensures forall k :: k in m && m[k].categoryId == categoryId ==> m[k] in SubCategoriesOf(m, categoryId)
    ensures forall s :: s in SubCategoriesOf(m, categoryId) ==>
              s.categoryId == categoryId && s.id in m && m[s.id] == s
  {
    var mine := Filter(Rows(m), InCategory(categoryId));
    SortByKeyFacts(mine, SubCategorySortKey);
    SameMembers(SubCategoriesOf(m, categoryId), mine);
    IndexHasEvery(m, categoryId);
    IndexHasOnly(m, categoryId);
  }

  /** The index lookup returns every stored subcategory of `categoryId`. */
  lemma IndexHasEvery(m: map<int, SubCategory>, categoryId: int)
    ensures forall k :: k in m && m[k].categoryId == categoryId ==> m[k] in Filter(Rows(m), InCategory(categoryId))
  {
    RowsAreValues(m);
    forall k | k in m && m[k].categoryId == categoryId ensures m[k] in Filter(Rows(m), InCategory(categoryId)) {
      FilterHas(Rows(m), InCategory(categoryId), m[k]);
    }
  }

  /** The index lookup returns only stored subcategories of `categoryId`. */
  lemma IndexHasOnly(m: map<int, SubCategory>, categoryId: int)
    requires forall k :: k in m ==> m[k].id == k
    ensures forall s :: s in Filter(Rows(m), InCategory(categoryId)) ==>
              s.categoryId == categoryId && s.id in m && m[s.id] == s
  {
    var mine := Filter(Rows(m), InCategory(categoryId));
    RowsAreValues(m);
    forall s | s in mine ensures s.categoryId == categoryId && s.id in m && m[s.id] == s {
      var k :| k in m && m[k] == s;
    }
  }

  /** The subcategory list is sorted by `sort_order`, ties by ascending id. */
  lemma SubCategoriesOfOrder(m: map<int, SubCategory>, categoryId: int)
    requires forall k :: k in m ==> m[k].id == k
    ensures SortedByKey(SubCategoriesOf(m, categoryId), SubCategorySortKey)
    ensures forall o :: IncreasingBy(WithKey(SubCategoriesOf(m, categoryId), SubCategorySortKey, o), SubCategoryIdOf)
  {
    var mine := Filter(Rows(m), InCategory(categoryId));
    SortByKeyFacts(mine, SubCategorySortKey);
    SubCategoryRowsIncreasing(m);
    FilterIncreasing(Rows(m), InCategory(categoryId), SubCategoryIdOf);
    SortKeepsTiesIncreasing(mine, SubCategorySortKey, SubCategoryIdOf);
  }

  /** `useReferenceData`. */
  class CategoriesHook {
    /** The store handle; `null` stands for `getDB()` yielding nothing. */
    const db: LocalStore?
    var categories: seq<Category>
    var isLoading: bool

    constructor (db: LocalStore?)
      ensures this.db == db && categories == [] && isLoading
    {
      this.db := db;
      categories := [];
      isLoading := true;
    }

    /** `fetchCategories`, run on mount and on every store-change signal:
      the sorted category list; without a store handle, or when the read
      fails (`readFails`), the previous list stays; loading ends in every
      case. */
    method FetchCategories(readFails: bool)
      modifies this`categories, this`isLoading
      ensures !isLoading
      ensures categories == if db != null && !readFails then SortedCategories(db.categories) else old(categories)
    {
      isLoading := true;
      if db != null && !readFails {
        var all := db.GetAllCategories();
        categories := SortByKey(all, CategorySortKey);
      }
      isLoading := false;
    }
  }

  /** `useSubCategories(categoryId)`. */
  class SubCategoriesHook {
    const db: LocalStore?
    /** The selected category; `None` stands for `null`. */
    var categoryId: Option<int>
    var subCategories: seq<SubCategory>
    var isLoading: bool

    constructor (db: LocalStore?)
      ensures this.db == db && categoryId == None && subCategories == [] && !isLoading
    {
      this.db := db;
      categoryId := None;
      subCategories := [];
      isLoading := false;
    }

    predicate Selected()
      reads this
    {
      categoryId.Some? && categoryId.value != 0
    }

    /** The effect run when the selected category becomes `id`: with no
      category (`null` or 0) the list empties without a store read and the
      loading flag is left alone; otherwise the list is re-read. */
    method SelectCategory(id: Option<int>, readFails: bool)
      modifies this`categoryId, this`subCategories, this`isLoading
      ensures categoryId == id
      ensures !Selected() ==> subCategories == [] && isLoading == old(isLoading)
      ensures Selected() ==> !isLoading
      ensures Selected() ==>
                subCategories == if db != null && !readFails then SubCategoriesOf(db.subcategories, id.value)
                                 else old(subCategories)
    {
      categoryId := id;
      if !Selected() {
        subCategories := [];
        return;
      }
      FetchSub(id.value, readFails);
    }

    /** The store-change listener: re-reads only while a category is selected. */
    method OnStoreChanged(readFails: bool)
      modifies this`subCategories, this`isLoading
      ensures !Selected() ==> subCategories == old(subCategories) && isLoading == old(isLoading)
      ensures Selected() ==> !isLoading
      ensures Selected() ==>
                subCategories == if db != null && !readFails then SubCategoriesOf(db.subcategories, categoryId.value)
                                 else old(subCategories)
    {
      if Selected() {
        FetchSub(categoryId.value, readFails);
      }
    }

    /** `fetchSub`: the sorted subcategories of `c`, or the previous list
      when there is no store handle or the read fails. */
    method FetchSub(c: int, readFails: bool)
      modifies this`subCategories, this`isLoading
      ensures !isLoading
      ensures subCategories == if db != null && !readFails then SubCategoriesOf(db.subcategories, c) else old(subCategories)
    {
      isLoading := true;
      if db != null && !readFails {
        var all := db.GetSubCategoriesOf(c);
        assert all == Filter(Rows(db.subcategories), InCategory(c));
        subCategories := SortByKey(all, SubCategorySortKey);
      }
      isLoading := false;
    }
  }
}
