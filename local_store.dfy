/** The on-device store (lib/db/client.ts): three tables, `categories` keyed
    by `id`, `subcategories` keyed by `id` and read through their
    `category_id`, and `expenses` keyed by an auto-incremented `local_id`;
    plus the change signal that writers broadcast after a write. */
module LocalDb {
  import opened Wrappers
  import opened Seqs
  import opened Records

  /** The contents of the three tables and the `local_id` key generator. */
  datatype Tables = Tables(
    categories: map<int, Category>,
    subcategories: map<int, SubCategory>,
    expenses: map<int, LocalExpense>,
    nextLocalId: int)

  /** Every record sits under its own key, and every expense key is below
      the key generator, which starts at 1. */
  ghost predicate WellFormed(t: Tables)
  {
    t.nextLocalId >= 1 &&
    (forall k :: k in t.categories ==> t.categories[k].id == k) &&
    (forall k :: k in t.subcategories ==> t.subcategories[k].id == k) &&
    (forall k :: k in t.expenses ==> k < t.nextLocalId && t.expenses[k].localId == k)
  }

  class LocalStore {
    var categories: map<int, Category>
    var subcategories: map<int, SubCategory>
    var expenses: map<int, LocalExpense>
    var nextLocalId: int

    function Snapshot(): Tables
      reads this
    {
      Tables(categories, subcategories, expenses, nextLocalId)
    }

    ghost predicate Valid()
      reads this
    {
      WellFormed(Snapshot())
    }

    constructor ()
      ensures Valid()
      ensures categories == map[] && subcategories == map[] && expenses == map[] && nextLocalId == 1
    {
      categories, subcategories, expenses, nextLocalId := map[], map[], map[], 1;
    }

    /** `db.count("categories")`. */
    method CountCategories() returns (n: nat)
      ensures n == |categories|
    {
      n := |categories|;
    }

    /** `db.getAll("categories")`: all rows in key order. */
    method GetAllCategories() returns (rows: seq<Category>)
      ensures rows == Rows(categories)
    {
      rows := Rows(categories);
    }

    /** The subcategories whose `category_id` is `categoryId`, in key order. */
    method GetSubCategoriesOf(categoryId: int) returns (rows: seq<SubCategory>)
      ensures rows == Filter(Rows(subcategories), InCategory(categoryId))
    {
      rows := Filter(Rows(subcategories), InCategory(categoryId));
    }

    /** `db.getAll("expenses")`: all rows in `local_id` order. */
    method GetAllExpenses() returns (rows: seq<LocalExpense>)
      ensures rows == Rows(expenses)
    {
      rows := Rows(expenses);
    }

    /** Upsert of a category under its id. */
    method PutCategory(c: Category)
      requires Valid()
      modifies this
      ensures Valid()
      ensures categories == old(categories)[c.id := c]
      ensures subcategories == old(subcategories) && expenses == old(expenses)
      ensures nextLocalId == old(nextLocalId)
    {
      categories := categories[c.id := c];
    }

    /** Upsert of a subcategory under its id. */
    method PutSubCategory(s: SubCategory)
      requires Valid()
      modifies this
      ensures Valid()
      ensures subcategories == old(subcategories)[s.id := s]
      ensures categories == old(categories) && expenses == old(expenses)
      ensures nextLocalId == old(nextLocalId)
    {
      subcategories := subcategories[s.id := s];
    }

    /** Insert of an expense without a key: it is stored under the next
      value of the key generator, which then moves on. */
    method AddExpense(e: LocalExpense) returns (key: int)
      requires Valid()
      modifies this
      ensures Valid()
      ensures key == old(nextLocalId) && key !in old(expenses)
      ensures expenses == old(expenses)[key := e.(localId := key)]
      ensures nextLocalId == old(nextLocalId) + 1
      ensures categories == old(categories) && subcategories == old(subcategories)
    {
      key := nextLocalId;
      expenses := expenses[key := e.(localId := key)];
      nextLocalId := nextLocalId + 1;
    }

    /** Upsert of an expense under its own `local_id`; an explicit key at or
      above the generator moves the generator past it. */
    method PutExpense(e: LocalExpense)
      requires Valid()
      modifies this
      ensures Valid()
      ensures expenses == old(expenses)[e.localId := e]
      ensures nextLocalId == if e.localId < old(nextLocalId) then old(nextLocalId) else e.localId + 1
      ensures categories == old(categories) && subcategories == old(subcategories)
    {
      expenses := expenses[e.localId := e];
      if e.localId >= nextLocalId {
        nextLocalId := e.localId + 1;
      }
    }

    /** Removes an expense; a missing key is a no-op. */
    method DeleteExpense(key: int)
      requires Valid()
      modifies this
      ensures Valid()
      ensures expenses == old(expenses) - {key}
      ensures nextLocalId == old(nextLocalId)
      ensures categories == old(categories) && subcategories == old(subcategories)
    {
      expenses := expenses - {key};
    }
  }

  /** The `expense-tracker-db-change` window event; `emitted` counts dispatches. */
  class ChangeBus {
    var emitted: nat

    constructor ()
      ensures emitted == 0
    {
      emitted := 0;
    }

    method Emit()
      modifies this
      ensures emitted == old(emitted) + 1
    {
      emitted := emitted + 1;
    }
  }
}
