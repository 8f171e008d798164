/** The expenses hook (hooks/use-expenses.ts): the ten most recent local
    expenses, adding an expense as a pending local record, and deleting one
    locally. Each write broadcasts the store-change signal. */
module ExpensesHooks {
  import opened Wrappers
  import opened Seqs
  import opened Strings
  import opened Records
  import opened LocalDb
  import Sync

  /** How many expenses the list shows. */
  const RECENT_LIMIT: nat := 10

  /** The error `addExpense` raises without a store handle. */
  const DATABASE_NOT_READY: string := "Database not ready"

  function ExpenseDate(e: LocalExpense): string
  {
    e.payload.data.expenseDate
  }

  /** `a` comes before `b` in `orderBy('expense_date').reverse()`: a later
      date, or the same date and a larger `local_id`. */
  predicate NewerThan(a: LocalExpense, b: LocalExpense)
  {
    StrLess(ExpenseDate(b), ExpenseDate(a)) || (ExpenseDate(a) == ExpenseDate(b) && a.localId > b.localId)
  }

  /** `NewerThan` is a strict order, total on records with distinct keys. */
  lemma NewerThanOrder(a: LocalExpense, b: LocalExpense, c: LocalExpense)
    ensures !NewerThan(a, a)
    ensures NewerThan(a, b) && NewerThan(b, c) ==> NewerThan(a, c)
    ensures a.localId != b.localId ==> NewerThan(a, b) || NewerThan(b, a)
    ensures !(NewerThan(a, b) && NewerThan(b, a))
  {
    StrLessIrreflexive(ExpenseDate(a));
    StrLessTrichotomy(ExpenseDate(a), ExpenseDate(b));
    if NewerThan(a, b) && NewerThan(b, c) {
      if StrLess(ExpenseDate(b), ExpenseDate(a)) && StrLess(ExpenseDate(c), ExpenseDate(b)) {
        StrLessTransitive(ExpenseDate(c), ExpenseDate(b), ExpenseDate(a));
      }
    }
  }

  ghost predicate NewestFirstOrder(s: seq<LocalExpense>)
  {
    forall i, j :: 0 <= i < j < |s| ==> NewerThan(s[i], s[j])
  }

  ghost predicate DistinctKeys(s: seq<LocalExpense>)
  {
    forall i, j :: 0 <= i < j < |s| ==> s[i].localId != s[j].localId
  }

  function InsertNewest(x: LocalExpense, s: seq<LocalExpense>): seq<LocalExpense>
  {
    if s == [] || NewerThan(x, s[0]) then [x] + s else [s[0]] + InsertNewest(x, s[1..])
  }

  /** The records ordered newest first (an insertion sort). */
  function NewestFirst(s: seq<LocalExpense>): seq<LocalExpense>
  {
    if s == [] then [] else InsertNewest(s[0], NewestFirst(s[1..]))
  }

  lemma {:induction false} InsertNewestKeeps(x: LocalExpense, s: seq<LocalExpense>)
    ensures multiset(InsertNewest(x, s)) == multiset([x] + s)
  {
    if !(s == [] || NewerThan(x, s[0])) {
      InsertNewestKeeps(x, s[1..]);
      assert s == [s[0]] + s[1..];
    }
  }

  /** Inserting a record into a newest-first list keeps it newest first. */
  lemma {:induction false} InsertNewestFacts(x: LocalExpense, s: seq<LocalExpense>)
    requires NewestFirstOrder(s)
    requires forall i :: 0 <= i < |s| ==> s[i].localId != x.localId
    ensures NewestFirstOrder(InsertNewest(x, s))
    ensures multiset(InsertNewest(x, s)) == multiset([x] + s)
  {
    InsertNewestKeeps(x, s);
    if s == [] || NewerThan(x, s[0]) {
      forall j | 0 <= j < |s| ensures NewerThan(x, s[j]) {
        if j > 0 {
          NewerThanOrder(x, s[0], s[j]);
        }
      }
    } else {
      NewerThanOrder(x, s[0], s[0]);
      InsertNewestFacts(x, s[1..]);
      InsertNewestBound(x, s[1..], s[0]);
      assert InsertNewest(x, s) == [s[0]] + InsertNewest(x, s[1..]);
    }
  }

  /** A record newer than `x` and than every record of `s` is newer than
      every record of the insertion. */
  lemma {:induction false} InsertNewestBound(x: LocalExpense, s: seq<LocalExpense>, b: LocalExpense)
    requires NewerThan(b, x) && forall i :: 0 <= i < |s| ==> NewerThan(b, s[i])
    ensures forall i :: 0 <= i < |InsertNewest(x, s)| ==> NewerThan(b, InsertNewest(x, s)[i])
  {
    if !(s == [] || NewerThan(x, s[0])) {
      InsertNewestBound(x, s[1..], b);
      assert InsertNewest(x, s) == [s[0]] + InsertNewest(x, s[1..]);
    }
  }

  /** Newest-first sorting orders the records and keeps each of them. */
  lemma {:induction false} NewestFirstFacts(s: seq<LocalExpense>)
    requires DistinctKeys(s)
    ensures NewestFirstOrder(NewestFirst(s))
    ensures multiset(NewestFirst(s)) == multiset(s)
  {
    if s != [] {
      NewestFirstFacts(s[1..]);
      var t := NewestFirst(s[1..]);
      OthersKeepKeys(s, t);
      InsertNewestFacts(s[0], t);
      assert s == [s[0]] + s[1..];
    }
  }

  /** A reordering of all but the first record has none with the first
      record's key. */
  lemma OthersKeepKeys(s: seq<LocalExpense>, t: seq<LocalExpense>)
    requires DistinctKeys(s) && s != [] && multiset(t) == multiset(s[1..])
    ensures forall i :: 0 <= i < |t| ==> t[i].localId != s[0].localId
  {
    forall i | 0 <= i < |t| ensures t[i].localId != s[0].localId {
      assert t[i] in multiset(s[1..]);
      var n :| 0 <= n < |s[1..]| && s[1..][n] == t[i];
      assert s[n + 1] == t[i];
    }
  }

  /** The list the hook shows: the newest ten records of the table. */
  function RecentExpenses(m: map<int, LocalExpense>): seq<LocalExpense>
  {
    Take(NewestFirst(Rows(m)), RECENT_LIMIT)
  }

  /** The records of a table are distinct by key, and each is a stored one. */
  lemma RowsOfExpenses(m: map<int, LocalExpense>)
    requires forall k :: k in m ==> m[k].localId == k
    ensures DistinctKeys(Rows(m))
    ensures forall i :: 0 <= i < |Rows(m)| ==> Rows(m)[i].localId in m && m[Rows(m)[i].localId] == Rows(m)[i]
    ensures forall k :: k in m ==> m[k] in multiset(Rows(m))
  {
    RowsKeyed(m);
    RowsAreValues(m);
    forall k | k in m ensures m[k] in multiset(Rows(m)) {
      assert m[k] in Rows(m);
    }
  }

  /** Row `i` of a table whose records sit under their own keys is the
      record with the `i`-th smallest key. */
  lemma RowsKeyed(m: map<int, LocalExpense>)
    requires forall k :: k in m ==> m[k].localId == k
    ensures forall i :: 0 <= i < |Rows(m)| ==>
              Rows(m)[i].localId == SortedKeys(m.Keys)[i] && Rows(m)[i].localId in m &&
              m[Rows(m)[i].localId] == Rows(m)[i]
  {
    forall i | 0 <= i < |Rows(m)| ensures Rows(m)[i].localId == SortedKeys(m.Keys)[i] {
      RowsAt(m, i);
    }
  }

  /** The whole table newest first: every stored record exactly once. */
  lemma NewestRowsFacts(m: map<int, LocalExpense>)
    requires forall k :: k in m ==> m[k].localId == k
    ensures |NewestFirst(Rows(m))| == |m|
    ensures NewestFirstOrder(NewestFirst(Rows(m)))
    ensures forall i :: 0 <= i < |NewestFirst(Rows(m))| ==>
              NewestFirst(Rows(m))[i].localId in m && m[NewestFirst(Rows(m))[i].localId] == NewestFirst(Rows(m))[i]
    ensures forall k :: k in m ==> m[k] in NewestFirst(Rows(m))
  {
    var rows := Rows(m);
    RowsOfExpenses(m);
    NewestFirstFacts(rows);
    var sorted := NewestFirst(rows);
    assert |sorted| == |rows| by {
      assert |multiset(sorted)| == |multiset(rows)|;
    }
    forall i | 0 <= i < |sorted| ensures sorted[i].localId in m && m[sorted[i].localId] == sorted[i] {
      assert sorted[i] in multiset(rows);
      var n :| 0 <= n < |rows| && rows[n] == sorted[i];
    }
    forall k | k in m ensures m[k] in sorted {
      assert m[k] in multiset(sorted);
    }
  }

  /** The list holds min(10, |table|) stored records, newest first. */
  lemma RecentExpensesFacts(m: map<int, LocalExpense>)
    requires forall k :: k in m ==> m[k].localId == k
    ensures |RecentExpenses(m)| == if |m| < RECENT_LIMIT then |m| else RECENT_LIMIT
    ensures NewestFirstOrder(RecentExpenses(m))
    ensures forall i :: 0 <= i < |RecentExpenses(m)| ==>
              RecentExpenses(m)[i].localId in m && m[RecentExpenses(m)[i].localId] == RecentExpenses(m)[i]
  {
    NewestRowsFacts(m);
    var sorted := NewestFirst(Rows(m));
    var r := RecentExpenses(m);
    forall i, j | 0 <= i < j < |r| ensures NewerThan(r[i], r[j]) {
      assert r[i] == sorted[i] && r[j] == sorted[j];
    }
  }

  /** No stored record left out of the list is newer than any record in it. */
  lemma RecentOmitsOnlyOlder(m: map<int, LocalExpense>)
    requires forall k :: k in m ==> m[k].localId == k
    ensures forall k :: k in m && m[k] !in RecentExpenses(m) ==>
              forall i :: 0 <= i < |RecentExpenses(m)| ==> NewerThan(RecentExpenses(m)[i], m[k])
  {
    NewestRowsFacts(m);
    var sorted := NewestFirst(Rows(m));
    var r := RecentExpenses(m);
    forall k | k in m
      ensures m[k] in r || forall i :: 0 <= i < |r| ==> NewerThan(r[i], m[k])
    {
      var j :| 0 <= j < |sorted| && sorted[j] == m[k];
      if j < |r| {
        assert r[j] == m[k];
      } else {
        forall i | 0 <= i < |r| ensures NewerThan(r[i], m[k]) {
          assert r[i] == sorted[i];
        }
      }
    }
  }

  /** The record `addExpense` stores for `data`, under key `key`. */
  function NewLocalExpense(data: ExpenseInsert, now: string, key: int): LocalExpense
  {
    LocalExpense(key, None, NotSynced, Payload(data, now, now, None))
  }

  /** A newly added expense is pending and the next push inserts exactly its
      fields (it has no server id yet). */
  lemma NewExpenseIsPushedAsInsert(data: ExpenseInsert, now: string, key: int)
    ensures IsPending(NewLocalExpense(data, now, key))
    ensures Sync.RequestFor(NewLocalExpense(data, now, key)) == Sync.Insert(Payload(data, now, now, None))
  {
  }

  class ExpensesHook {
    /** The store handle; `null` stands for `getDB()` yielding nothing. */
    const db: LocalStore?
    const bus: ChangeBus
    var expenses: seq<LocalExpense>
    var isLoading: bool

    constructor (db: LocalStore?, bus: ChangeBus)
      ensures this.db == db && this.bus == bus
      ensures expenses == [] && isLoading
    {
      this.db := db;
      this.bus := bus;
      expenses := [];
      isLoading := true;
    }

    /** `fetchExpenses`, also run on every store-change signal: reloads the
      list; without a store handle, or when the read fails
      (`readFails`), the previous list stays; loading ends in every case. */
    method FetchExpenses(readFails: bool)
      requires db != null ==> db.Valid()
      modifies this`expenses, this`isLoading
      ensures !isLoading
      ensures expenses == if db != null && !readFails then RecentExpenses(db.expenses) else old(expenses)
    {
      isLoading := true;
      if db != null && !readFails {
        var all := db.GetAllExpenses();
        expenses := Take(NewestFirst(all), RECENT_LIMIT);
      }
      isLoading := false;
    }

    /** `addExpense`: stores `data` as a new pending record stamped `now`
      under the next local key, then signals the change. */
    method AddExpense(data: ExpenseInsert, now: string) returns (r: Outcome<string>)
      requires db != null ==> db.Valid()
      modifies db, bus
      ensures db == null ==> r == Fail(DATABASE_NOT_READY) && bus.emitted == old(bus.emitted)
      ensures db != null ==>
                r == Pass && db.Valid() &&
                db.expenses == old(db.expenses)[old(db.nextLocalId) := NewLocalExpense(data, now, old(db.nextLocalId))] &&
                db.nextLocalId == old(db.nextLocalId) + 1 &&
                db.categories == old(db.categories) && db.subcategories == old(db.subcategories) &&
                bus.emitted == old(bus.emitted) + 1
    {
      if db == null {
        return Fail(DATABASE_NOT_READY);
      }
      var key := db.AddExpense(LocalExpense(0, None, NotSynced, Payload(data, now, now, None)));
      bus.Emit();
      r := Pass;
    }

    /** `deleteExpense`: a missing or zero key, or no store handle, does
      nothing; otherwise the record is removed and the change signalled. */
    method DeleteExpense(localId: Option<int>)
      requires db != null ==> db.Valid()
      modifies db, bus
      ensures db != null ==> db.Valid()
      ensures if localId.Some? && localId.value != 0 && db != null then
                db.expenses == old(db.expenses) - {localId.value} && bus.emitted == old(bus.emitted) + 1
              else
                (db != null ==> db.expenses == old(db.expenses)) && bus.emitted == old(bus.emitted)
      ensures db != null ==>
                db.categories == old(db.categories) && db.subcategories == old(db.subcategories) &&
                db.nextLocalId == old(db.nextLocalId)
    {
      if localId.None? || localId.value == 0 {
        return;
      }
      if db == null {
        return;
      }
      db.DeleteExpense(localId.value);
      bus.Emit();
    }
  }
}
