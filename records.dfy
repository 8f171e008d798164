/** The records the application stores and exchanges with the backend
    (lib/types/database.types.ts, lib/sync/types.ts). Amounts are integers in
    minor currency units; dates inside records are `YYYY-MM-DD` strings and
    timestamps are ISO strings, as in the source. */
module Records {
  import opened Wrappers
  import PaymentTypes
  import ExpensePriorities

  /** A category row; `sortOrder` is `None` when the column is missing. */
  datatype Category = Category(
    id: int, code: string, description: string, isActive: bool,
    sortOrder: Option<int>, createdAt: string, updatedAt: string)

  datatype SubCategory = SubCategory(
    id: int, categoryId: int, code: string, description: string, isActive: bool,
    sortOrder: Option<int>, createdAt: string, updatedAt: string)

  /** The user-entered fields of an expense (`ExpenseInsert`). */
  datatype ExpenseInsert = ExpenseInsert(
    amount: int, expenseDate: string, categoryId: int, subCategoryId: Option<int>,
    description: Option<string>, itemName: Option<string>, notes: Option<string>,
    priority: ExpensePriorities.ExpensePriority, paymentType: PaymentTypes.PaymentType,
    isEmi: bool, isVacation: bool)

  /** An expense row as the backend returns it (`Expense`). */
  datatype Expense = Expense(
    id: int, data: ExpenseInsert, createdAt: string, updatedAt: string, deletedAt: Option<string>)

  /** Everything of a local expense except `local_id`, `synced` and `id`:
      the body sent to the backend. */
  datatype Payload = Payload(
    data: ExpenseInsert, createdAt: string, updatedAt: string, deletedAt: Option<string>)

  /** The stored `synced` value: `false` for local edits, `true` after a
      push, and the number `1` that bootstrap writes for downloaded rows. */
  datatype SyncFlag = NotSynced | Synced | FromServer

  /** An expense in the local store (`LocalExpense`); `id` is the server id. */
  datatype LocalExpense = LocalExpense(
    localId: int, id: Option<int>, synced: SyncFlag, payload: Payload)

  /** `e.synced === false`. */
  predicate IsPending(e: LocalExpense)
  {
    e.synced == NotSynced
  }

  /** `(x || 0)` on a sort order that may be missing. */
  function OrderOrZero(o: Option<int>): int
  {
    if o.Some? then o.value else 0
  }

  function CategoryId(c: Category): int { c.id }

  function SubCategoryIdOf(s: SubCategory): int { s.id }

  /** Whether a subcategory belongs to category `c`. */
  function InCategory(c: int): SubCategory -> bool
  {
    (s: SubCategory) => s.categoryId == c
  }

  function CategorySortKey(c: Category): int { OrderOrZero(c.sortOrder) }

  function SubCategorySortKey(s: SubCategory): int { OrderOrZero(s.sortOrder) }
}
