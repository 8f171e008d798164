/** The sync engine (lib/sync/engine.ts): the last-sync timestamp slot, the
    one-time download of reference data and expenses into an empty store
    (`bootstrap`), and the push of every unsynced local expense to the
    backend (`pushChanges`). The backend is an oracle: bootstrap receives the
    three `select("*")` answers, and the push receives a function giving the
    reply to the n-th request the engine has issued. */
module Sync {
  import opened Wrappers
  import opened Seqs
  import opened Records
  import opened LocalDb

  /** A value thrown by the engine: an `Error` instance with its message,
      or any other value (a plain error object from the backend client). */
  datatype Thrown = ErrorObject(message: string) | OtherValue

  datatype Table = CategoriesTable | SubCategoriesTable | ExpensesTable

  /** A request to the backend: a full-table select, an insert of a payload
      (returning the new id), or an update of the row with a given id. */
  datatype Request = SelectAll(table: Table) | Insert(payload: Payload) | Update(id: int, payload: Payload)

  /** The backend's answer to an insert or update: accepted (with the id of
      the inserted row, when it returned one) or rejected with an error. */
  datatype Reply = Accepted(returnedId: Option<int>) | Rejected(error: Thrown)

  /** The answer to a `select("*")`: `{ data, error }`. */
  datatype Fetch<T> = Fetch(data: Option<seq<T>>, error: Option<Thrown>)

  // ---------------------------------------------------------------------
  // pushChanges

  /** `if (id)`: the record has a server id, and it is not 0. */
  predicate HasServerId(e: LocalExpense)
  {
    e.id.Some? && e.id.value != 0
  }

  /** The request issued for a pending record: an update of its server row
      when it has a server id, an insert otherwise; the body never carries
      `local_id`, `synced` or `id`. */
  function RequestFor(e: LocalExpense): Request
  {
    if HasServerId(e) then Update(e.id.value, e.payload) else Insert(e.payload)
  }

  /** The record written back after the reply, or `None` when nothing is
      written: an accepted update marks it synced; an accepted insert that
      returned a row also records the new server id. */
  function Reconciled(e: LocalExpense, reply: Reply): Option<LocalExpense>
  {
    if HasServerId(e) then
      if reply.Accepted? then Some(e.(synced := Synced)) else None
    else if reply.Accepted? && reply.returnedId.Some? then
      Some(e.(id := reply.returnedId, synced := Synced))
    else None
  }

  /** What the store holds for `e` once its reply has been handled. */
  function AfterReply(e: LocalExpense, reply: Reply): LocalExpense
  {
    match Reconciled(e, reply)
    case Some(u) => u
    case None => e
  }

  /** The unsynced records, in `local_id` order. */
  function PendingOf(m: map<int, LocalExpense>): seq<LocalExpense>
  {
    Filter(Rows(m), IsPending)
  }

  /** The requests the push issues for `pending`, one per record, in order. */
  function PushRequests(pending: seq<LocalExpense>): seq<Request>
  {
    if pending == [] then [] else [RequestFor(pending[0])] + PushRequests(pending[1..])
  }

  /** Exactly one request per pending record, in order: an update of the
      server row for a record with a server id, an insert otherwise, the
      body being the record without its local key, flag and server id. */
  lemma {:induction false} PushRequestsFacts(pending: seq<LocalExpense>)
    ensures |PushRequests(pending)| == |pending|
    ensures forall i :: 0 <= i < |pending| ==>
              PushRequests(pending)[i] ==
                if HasServerId(pending[i]) then Update(pending[i].id.value, pending[i].payload)
                else Insert(pending[i].payload)
  {
    if pending != [] {
      PushRequestsFacts(pending[1..]);
      forall i | 1 <= i < |pending| ensures PushRequests(pending)[i] == PushRequests(pending[1..])[i - 1] {
      }
    }
  }

  /** The expenses table after handling `pending` in order, the request for
      `pending[i]` being the `base + i`-th one the engine has issued. */
  function PushFrom(m: map<int, LocalExpense>, pending: seq<LocalExpense>, base: nat,
                    respond: (nat, Request) -> Reply): map<int, LocalExpense>
    decreases |pending|
  {
    if pending == [] then m
    else PushFrom(PushStep(m, pending[0], base, respond), pending[1..], base + 1, respond)
  }

  /** Handling one record whose request is the engine's n-th. */
  function PushStep(m: map<int, LocalExpense>, e: LocalExpense, n: nat,
                    respond: (nat, Request) -> Reply): map<int, LocalExpense>
  {
    WriteBack(m, e, respond(n, RequestFor(e)))
  }

  /** The table after the reply for `e` has been handled. */
  function WriteBack(m: map<int, LocalExpense>, e: LocalExpense, reply: Reply): map<int, LocalExpense>
  {
    match Reconciled(e, reply)
    case Some(u) => m[u.localId := u]
    case None => m
  }

  /** The write-back touches only the record's own key. */
  lemma WriteBackKeys(m: map<int, LocalExpense>, e: LocalExpense, reply: Reply)
    requires e.localId in m
    ensures WriteBack(m, e, reply).Keys == m.Keys
  {
  }

  /** The requests for `pending[i..]` start with the one for `pending[i]`. */
  lemma PushRequestsUnfold(pending: seq<LocalExpense>, i: nat)
    requires i < |pending|
    ensures PushRequests(pending[i..]) == [RequestFor(pending[i])] + PushRequests(pending[i + 1..])
  {
    assert pending[i..][1..] == pending[i + 1..];
  }

  /** The pass over `pending[i..]` starts with the step for `pending[i]`. */
  lemma PushFromUnfold(m: map<int, LocalExpense>, pending: seq<LocalExpense>, i: nat, n: nat,
                       respond: (nat, Request) -> Reply)
    requires i < |pending|
    ensures PushFrom(m, pending[i..], n, respond) ==
            PushFrom(PushStep(m, pending[i], n, respond), pending[i + 1..], n + 1, respond)
  {
    assert pending[i..][1..] == pending[i + 1..];
  }

  /** The reply the record `pending[i]` receives. */
  function ReplyAt(pending: seq<LocalExpense>, i: nat, base: nat, respond: (nat, Request) -> Reply): Reply
    requires i < |pending|
  {
    respond(base + i, RequestFor(pending[i]))
  }

  /** What a push pass does to the expenses table. */
  function PushResult(m: map<int, LocalExpense>, base: nat, respond: (nat, Request) -> Reply): map<int, LocalExpense>
  {
    PushFrom(m, PendingOf(m), base, respond)
  }

  /** The pending records are exactly the stored records with
      `synced === false`, each once, in ascending `local_id` order. */
  lemma PendingFacts(m: map<int, LocalExpense>)
    requires forall k :: k in m ==> m[k].localId == k
    ensures forall i :: 0 <= i < |PendingOf(m)| ==>
              PendingOf(m)[i].localId in m && m[PendingOf(m)[i].localId] == PendingOf(m)[i] &&
              IsPending(PendingOf(m)[i])
    ensures forall i, j :: 0 <= i < j < |PendingOf(m)| ==> PendingOf(m)[i].localId < PendingOf(m)[j].localId
  {
    var rows := Rows(m);
    var ks := SortedKeys(m.Keys);
    forall i | 0 <= i < |rows| ensures rows[i] == m[ks[i]] && rows[i].localId == ks[i] {
      RowsAt(m, i);
    }
    FilterIncreasing(rows, IsPending, (e: LocalExpense) => e.localId);
    forall i | 0 <= i < |PendingOf(m)|
      ensures PendingOf(m)[i].localId in m && m[PendingOf(m)[i].localId] == PendingOf(m)[i]
    {
      var x := PendingOf(m)[i];
      assert x in rows;
      var n :| 0 <= n < |rows| && rows[n] == x;
      assert rows[n] == m[ks[n]] && rows[n].localId == ks[n];
      assert ks[n] in m;
    }
  }

  /** Every stored record with `synced === false` is in the pending list. */
  lemma PendingComplete(m: map<int, LocalExpense>, k: int)
    requires k in m && IsPending(m[k])
    ensures m[k] in PendingOf(m)
  {
    var ks := SortedKeys(m.Keys);
    var n :| 0 <= n < |ks| && ks[n] == k;
    RowsAt(m, n);
    FilterKeeps(Rows(m), IsPending, n);
  }

  /** A push pass over distinct records of the table keeps the same keys,
      stores `AfterReply` for each record it handles, and leaves every other
      record untouched. */
  lemma {:induction false} PushFromFacts(m: map<int, LocalExpense>, pending: seq<LocalExpense>, base: nat,
                                         respond: (nat, Request) -> Reply)
    requires forall i :: 0 <= i < |pending| ==> pending[i].localId in m && m[pending[i].localId] == pending[i]
    requires forall i, j :: 0 <= i < j < |pending| ==> pending[i].localId != pending[j].localId
    ensures PushFrom(m, pending, base, respond).Keys == m.Keys
    ensures forall i :: 0 <= i < |pending| ==>
              PushFrom(m, pending, base, respond)[pending[i].localId] ==
              AfterReply(pending[i], ReplyAt(pending, i, base, respond))
    ensures forall k :: k in m && (forall i :: 0 <= i < |pending| ==> pending[i].localId != k) ==>
              PushFrom(m, pending, base, respond)[k] == m[k]
    decreases |pending|
  {
    if pending != [] {
      var e := pending[0];
      var m' := PushStep(m, e, base, respond);
      assert m'.Keys == m.Keys;
      var rest := pending[1..];
      assert forall i :: 0 <= i < |rest| ==> rest[i].localId != e.localId;
      PushFromFacts(m', rest, base + 1, respond);
      assert forall i :: 0 <= i < |rest| ==> rest[i] == pending[i + 1];
      assert PushFrom(m, pending, base, respond) == PushFrom(m', rest, base + 1, respond);
      forall i | 0 <= i < |pending|
        ensures PushFrom(m, pending, base, respond)[pending[i].localId] ==
                AfterReply(pending[i], ReplyAt(pending, i, base, respond))
      {
        if i == 0 {
          assert forall j :: 0 <= j < |rest| ==> rest[j].localId != e.localId;
        } else {
          assert ReplyAt(pending, i, base, respond) == ReplyAt(rest, i - 1, base + 1, respond);
        }
      }
    }
  }

  /** The effect of one pass on each stored record: non-pending records are
      untouched; a pending record gets the reconciled value, so it is marked
      synced exactly when its write was accepted (and, for an insert, the
      backend returned the new row, whose id it then keeps). */
  lemma PushPassEffect(m: map<int, LocalExpense>, base: nat, respond: (nat, Request) -> Reply)
    requires forall k :: k in m ==> m[k].localId == k
    ensures PushResult(m, base, respond).Keys == m.Keys
    ensures forall k :: k in m && !IsPending(m[k]) ==> PushResult(m, base, respond)[k] == m[k]
    ensures forall k :: k in m && IsPending(m[k]) ==>
              exists i :: 0 <= i < |PendingOf(m)| && PendingOf(m)[i] == m[k] &&
                PushResult(m, base, respond)[k] == AfterReply(m[k], ReplyAt(PendingOf(m), i, base, respond))
  {
    var p := PendingOf(m);
    PendingFacts(m);
    PushFromFacts(m, p, base, respond);
    forall k | k in m && !IsPending(m[k]) ensures PushResult(m, base, respond)[k] == m[k] {
      forall i | 0 <= i < |p| ensures p[i].localId != k {
      }
    }
    forall k | k in m && IsPending(m[k])
      ensures exists i :: 0 <= i < |p| && p[i] == m[k] &&
                PushResult(m, base, respond)[k] == AfterReply(m[k], ReplyAt(p, i, base, respond))
    {
      PendingComplete(m, k);
      var i :| 0 <= i < |p| && p[i] == m[k];
      assert p[i].localId == k;
    }
  }

  /** An accepted write marks the record synced and (for an insert) gives it
      the returned server id; a rejected one leaves it exactly as it was, so
      the next pass retries it. */
  lemma ReplyOutcome(e: LocalExpense, reply: Reply)
    requires IsPending(e)
    ensures HasServerId(e) && reply.Accepted? ==> AfterReply(e, reply) == e.(synced := Synced)
    ensures !HasServerId(e) && reply.Accepted? && reply.returnedId.Some? ==>
              AfterReply(e, reply) == e.(id := reply.returnedId, synced := Synced)
    ensures reply.Rejected? || (!HasServerId(e) && reply.returnedId.None?) ==>
              AfterReply(e, reply) == e && IsPending(AfterReply(e, reply))
    ensures AfterReply(e, reply).localId == e.localId && AfterReply(e, reply).payload == e.payload
  {
  }

  /** Answers that accept every write and return an id for every insert. */
  ghost predicate AcceptsAll(respond: (nat, Request) -> Reply)
  {
    forall n: nat, q: Request :: respond(n, q).Accepted? && (q.Insert? ==> respond(n, q).returnedId.Some?)
  }

  /** When the backend accepts every write, nothing is pending after the
      pass, so the next pass issues no request at all. */
  lemma AllAcceptedLeavesNothingPending(m: map<int, LocalExpense>, base: nat, respond: (nat, Request) -> Reply)
    requires forall k :: k in m ==> m[k].localId == k
    requires AcceptsAll(respond)
    ensures forall k :: k in PushResult(m, base, respond) ==> !IsPending(PushResult(m, base, respond)[k])
    ensures PendingOf(PushResult(m, base, respond)) == []
  {
    var p := PendingOf(m);
    var r := PushResult(m, base, respond);
    PendingFacts(m);
    PushFromFacts(m, p, base, respond);
    forall k | k in r ensures !IsPending(r[k]) && r[k].localId == k {
      if i :| 0 <= i < |p| && p[i].localId == k {
        var reply := ReplyAt(p, i, base, respond);
        assert reply.Accepted? && (RequestFor(p[i]).Insert? ==> reply.returnedId.Some?);
        ReplyOutcome(p[i], reply);
      } else {
        assert r[k] == m[k];
        if IsPending(m[k]) {
          PendingComplete(m, k);
        }
      }
    }
    NoPendingRecords(r);
  }

  /** With no unsynced record stored, the pending list is empty. */
  lemma NoPendingRecords(m: map<int, LocalExpense>)
    requires forall k :: k in m ==> !IsPending(m[k])
    ensures PendingOf(m) == []
  {
    var rows := Rows(m);
    forall i | 0 <= i < |rows| ensures !IsPending(rows[i]) {
      RowsAt(m, i);
    }
  }

  /** Answers that reject every write (the backend is unreachable). */
  ghost predicate RejectsAll(respond: (nat, Request) -> Reply)
  {
    forall n: nat, q: Request :: respond(n, q).Rejected?
  }

  /** A pass in which every write fails leaves the table exactly as it was,
      so every pending record is retried by the next pass. */
  lemma RejectedPassChangesNothing(m: map<int, LocalExpense>, base: nat, respond: (nat, Request) -> Reply)
    requires forall k :: k in m ==> m[k].localId == k
    requires RejectsAll(respond)
    ensures PushResult(m, base, respond) == m
  {
    var p := PendingOf(m);
    var r := PushResult(m, base, respond);
    PendingFacts(m);
    PushFromFacts(m, p, base, respond);
    forall k | k in m ensures r[k] == m[k] {
      if i :| 0 <= i < |p| && p[i].localId == k {
        RejectedKeepsRecord(p, i, base, respond);
      }
    }
    SameEntries(r, m);
  }

  /** Maps with the same keys and the same value under each are equal. */
  lemma SameEntries<K, V>(a: map<K, V>, b: map<K, V>)
    requires a.Keys == b.Keys && forall k :: k in a ==> a[k] == b[k]
    ensures a == b
  {
  }

  /** A rejected push leaves its record as it was. */
  lemma RejectedKeepsRecord(p: seq<LocalExpense>, i: nat, base: nat, respond: (nat, Request) -> Reply)
    requires i < |p| && IsPending(p[i]) && RejectsAll(respond)
    ensures AfterReply(p[i], ReplyAt(p, i, base, respond)) == p[i]
  {
    var reply := ReplyAt(p, i, base, respond);
    assert reply.Rejected?;
    ReplyOutcome(p[i], reply);
  }

  /** Offline first, then back online: a failed pass keeps a new record
      pending with no server id; the next pass, the backend accepting,
      gives it the returned id and marks it synced, after which nothing is
      pending, so no later pass inserts it again. */
  lemma RetryThenSync(m: map<int, LocalExpense>, k: int, b1: nat, offline: (nat, Request) -> Reply,
                      b2: nat, online: (nat, Request) -> Reply)
    requires forall j :: j in m ==> m[j].localId == j
    requires k in m && IsPending(m[k]) && !HasServerId(m[k])
    requires RejectsAll(offline) && AcceptsAll(online)
    ensures PushResult(m, b1, offline) == m
    ensures var after := PushResult(PushResult(m, b1, offline), b2, online);
      k in after && after[k].synced == Synced && after[k].id.Some? &&
      after[k].payload == m[k].payload && after[k].localId == k &&
      PendingOf(after) == []
  {
    RejectedPassChangesNothing(m, b1, offline);
    var p := PendingOf(m);
    PendingFacts(m);
    PendingComplete(m, k);
    var i :| 0 <= i < |p| && p[i] == m[k];
    assert p[i].localId == k;
    PushFromFacts(m, p, b2, online);
    var reply := ReplyAt(p, i, b2, online);
    assert RequestFor(m[k]).Insert?;
    assert reply.Accepted? && reply.returnedId.Some?;
    ReplyOutcome(m[k], reply);
    AllAcceptedLeavesNothingPending(m, b2, online);
  }

  // ---------------------------------------------------------------------
  // bootstrap

  /** Writes `rows` into `m` one after the other under `key(row)` (`put`). */
  function PutAll<V>(m: map<int, V>, rows: seq<V>, key: V -> int): map<int, V>
    decreases |rows|
  {
    if rows == [] then m else PutAll(m[key(rows[0]) := rows[0]], rows[1..], key)
  }

  /** After the upserts, every row's key is present and holds the last row
      written under it; keys no row uses keep their old record. */
  lemma PutAllFacts<V>(m: map<int, V>, rows: seq<V>, key: V -> int)
    ensures PutAll(m, rows, key).Keys == m.Keys + set i | 0 <= i < |rows| :: key(rows[i])
    ensures forall i :: 0 <= i < |rows| && (forall j :: i < j < |rows| ==> key(rows[j]) != key(rows[i])) ==>
              PutAll(m, rows, key)[key(rows[i])] == rows[i]
    ensures forall k :: k in m && (forall i :: 0 <= i < |rows| ==> key(rows[i]) != k) ==>
              PutAll(m, rows, key)[k] == m[k]
  {
    PutAllKeys(m, rows, key);
    forall i | 0 <= i < |rows| && (forall j :: i < j < |rows| ==> key(rows[j]) != key(rows[i]))
      ensures PutAll(m, rows, key)[key(rows[i])] == rows[i]
    {
      PutAllLast(m, rows, key, i);
    }
    forall k | k in m && (forall i :: 0 <= i < |rows| ==> key(rows[i]) != k)
      ensures PutAll(m, rows, key)[k] == m[k]
    {
      PutAllUntouched(m, rows, key, k);
    }
  }

  lemma {:induction false} PutAllKeys<V>(m: map<int, V>, rows: seq<V>, key: V -> int)
    ensures PutAll(m, rows, key).Keys == m.Keys + set i | 0 <= i < |rows| :: key(rows[i])
    decreases |rows|
  {
    if rows != [] {
      var rest := rows[1..];
      PutAllKeys(m[key(rows[0]) := rows[0]], rest, key);
      var ks := set i | 0 <= i < |rows| :: key(rows[i]);
      var ks' := set i | 0 <= i < |rest| :: key(rest[i]);
      forall x | x in ks ensures x in {key(rows[0])} + ks' {
        var i :| 0 <= i < |rows| && key(rows[i]) == x;
        if i > 0 {
          assert key(rest[i - 1]) == x;
        }
      }
      forall x | x in ks' ensures x in ks {
        var i :| 0 <= i < |rest| && key(rest[i]) == x;
        assert key(rows[i + 1]) == x;
      }
      assert ks == {key(rows[0])} + ks';
    }
  }

  lemma {:induction false} PutAllLast<V>(m: map<int, V>, rows: seq<V>, key: V -> int, i: nat)
    requires i < |rows| && forall j :: i < j < |rows| ==> key(rows[j]) != key(rows[i])
    ensures key(rows[i]) in PutAll(m, rows, key) && PutAll(m, rows, key)[key(rows[i])] == rows[i]
    decreases |rows|
  {
    var m' := m[key(rows[0]) := rows[0]];
    var rest := rows[1..];
    if i == 0 {
      forall j | 0 <= j < |rest| ensures key(rest[j]) != key(rows[0]) {
        assert rest[j] == rows[j + 1];
      }
      PutAllUntouched(m', rest, key, key(rows[0]));
    } else {
      assert rest[i - 1] == rows[i];
      forall j | i - 1 < j < |rest| ensures key(rest[j]) != key(rest[i - 1]) {
        assert rest[j] == rows[j + 1];
      }
      PutAllLast(m', rest, key, i - 1);
    }
  }

  lemma {:induction false} PutAllUntouched<V>(m: map<int, V>, rows: seq<V>, key: V -> int, k: int)
    requires k in m && forall i :: 0 <= i < |rows| ==> key(rows[i]) != k
    ensures k in PutAll(m, rows, key) && PutAll(m, rows, key)[k] == m[k]
    decreases |rows|
  {
    if rows != [] {
      var rest := rows[1..];
      forall i | 0 <= i < |rest| ensures key(rest[i]) != k {
        assert rest[i] == rows[i + 1];
      }
      PutAllUntouched(m[key(rows[0]) := rows[0]], rest, key, k);
    }
  }

  /** A downloaded expense as stored, without its key: the server row with
      `synced: 1`. */
  function FromServerRow(x: Expense): LocalExpense
  {
    LocalExpense(0, Some(x.id), FromServer, Payload(x.data, x.createdAt, x.updatedAt, x.deletedAt))
  }

  /** The downloaded rows under the keys the generator hands out from `start`. */
  function Downloads(rows: seq<Expense>, start: int): map<int, LocalExpense>
    decreases |rows|
  {
    if rows == [] then map[]
    else Downloads(rows[1..], start + 1)[start := FromServerRow(rows[0]).(localId := start)]
  }

  /** The downloads occupy exactly the keys `start .. start + |rows| - 1`,
      the i-th row under `start + i`. */
  lemma {:induction false} DownloadsFacts(rows: seq<Expense>, start: int)
    ensures forall k :: k in Downloads(rows, start) <==> start <= k < start + |rows|
    ensures forall i :: 0 <= i < |rows| ==>
              Downloads(rows, start)[start + i] == FromServerRow(rows[i]).(localId := start + i)
    ensures forall k :: k in Downloads(rows, start) ==>
              Downloads(rows, start)[k].localId == k && Downloads(rows, start)[k].synced == FromServer
    ensures |Downloads(rows, start)| == |rows|
    decreases |rows|
  {
    if rows != [] {
      var rest := rows[1..];
      DownloadsFacts(rest, start + 1);
      assert start !in Downloads(rest, start + 1);
      forall i | 0 <= i < |rows|
        ensures Downloads(rows, start)[start + i] == FromServerRow(rows[i]).(localId := start + i)
      {
        if i > 0 {
          assert rows[i] == rest[i - 1];
          assert start + i == (start + 1) + (i - 1);
        }
      }
    }
  }

  /** No download takes a key below `start`. */
  lemma {:induction false} DownloadsAbove(rows: seq<Expense>, start: int, k: int)
    requires k < start
    ensures k !in Downloads(rows, start)
    decreases |rows|
  {
    if rows != [] {
      DownloadsAbove(rows[1..], start + 1, k);
    }
  }

  /** Writing `k` before or after adding maps that do not hold `k`. */
  /** Storing row `i` under `key` moves it from the rows still to come
      into the store. */
  lemma DownloadStep(m: map<int, LocalExpense>, rows: seq<Expense>, i: nat, key: int)
    requires i < |rows|
    ensures m[key := FromServerRow(rows[i]).(localId := key)] + Downloads(rows[i + 1..], key + 1) ==
            m + Downloads(rows[i..], key)
  {
    assert rows[i..][1..] == rows[i + 1..];
    DownloadsAbove(rows[i + 1..], key + 1, key);
    assert Downloads(rows[i..], key) == Downloads(rows[i + 1..], key + 1)[key := FromServerRow(rows[i]).(localId := key)];
    UpdateThenUnion(m, Downloads(rows[i + 1..], key + 1), key, FromServerRow(rows[i]).(localId := key));
  }

  lemma UpdateThenUnion(m: map<int, LocalExpense>, d: map<int, LocalExpense>, k: int, v: LocalExpense)
    requires k !in d
    ensures m[k := v] + d == m + d[k := v]
  {
  }

  function LoadCategories(t: Tables, f: Fetch<Category>): Tables
  {
    if f.data.Some? then t.(categories := PutAll(t.categories, f.data.value, CategoryId)) else t
  }

  function LoadSubCategories(t: Tables, f: Fetch<SubCategory>): Tables
  {
    if f.data.Some? then t.(subcategories := PutAll(t.subcategories, f.data.value, SubCategoryIdOf)) else t
  }

  function LoadExpenses(t: Tables, f: Fetch<Expense>): Tables
  {
    if f.data.Some? then
      t.(expenses := t.expenses + Downloads(f.data.value, t.nextLocalId),
         nextLocalId := t.nextLocalId + |f.data.value|)
    else t
  }

  /** The observable effect of a bootstrap: the tables, the requests issued,
      the timestamp written to the last-sync slot (if any), and the outcome. */
  datatype BootRun = BootRun(tables: Tables, requests: seq<Request>, stamp: Option<string>, outcome: Outcome<Thrown>)

  /** Bootstrap as a function of the store and the three answers: skipped
      on a store that already has categories; otherwise categories, then
      subcategories, then expenses, stopping at the first error; the
      timestamp is recorded only when all three steps succeed. */
  function BootstrapRun(t: Tables, cats: Fetch<Category>, subs: Fetch<SubCategory>,
                        exps: Fetch<Expense>, now: string): BootRun
  {
    if |t.categories| > 0 then BootRun(t, [], None, Pass)
    else if cats.error.Some? then BootRun(t, [SelectAll(CategoriesTable)], None, Fail(cats.error.value))
    else
      var b := SubCategoriesStage(LoadCategories(t, cats), subs, exps, now);
      b.(requests := [SelectAll(CategoriesTable)] + b.requests)
  }

  /** Bootstrap from the subcategories select on. */
  function SubCategoriesStage(t: Tables, subs: Fetch<SubCategory>, exps: Fetch<Expense>, now: string): BootRun
  {
    if subs.error.Some? then BootRun(t, [SelectAll(SubCategoriesTable)], None, Fail(subs.error.value))
    else
      var b := ExpensesStage(LoadSubCategories(t, subs), exps, now);
      b.(requests := [SelectAll(SubCategoriesTable)] + b.requests)
  }

  /** Bootstrap from the expenses select on. */
  function ExpensesStage(t: Tables, exps: Fetch<Expense>, now: string): BootRun
  {
    if exps.error.Some? then BootRun(t, [SelectAll(ExpensesTable)], None, Fail(exps.error.value))
    else BootRun(LoadExpenses(t, exps), [SelectAll(ExpensesTable)], Some(now), Pass)
  }

  /** Bootstrap keeps the store well formed: ids match keys, and the
      downloaded expenses take fresh keys above every existing one. */
  lemma BootstrapWellFormed(t: Tables, cats: Fetch<Category>, subs: Fetch<SubCategory>,
                            exps: Fetch<Expense>, now: string)
    requires WellFormed(t)
    ensures WellFormed(BootstrapRun(t, cats, subs, exps, now).tables)
  {
    LoadCategoriesWellFormed(t, cats);
    var t1 := LoadCategories(t, cats);
    LoadSubCategoriesWellFormed(t1, subs);
    LoadExpensesWellFormed(LoadSubCategories(t1, subs), exps);
  }

  lemma LoadCategoriesWellFormed(t: Tables, f: Fetch<Category>)
    requires WellFormed(t)
    ensures WellFormed(LoadCategories(t, f))
  {
    if f.data.Some? {
      var c := PutAll(t.categories, f.data.value, CategoryId);
      forall k | k in c ensures c[k].id == k {
        CategoryKeyHolds(t.categories, f.data.value, k);
      }
    }
  }

  lemma LoadSubCategoriesWellFormed(t: Tables, f: Fetch<SubCategory>)
    requires WellFormed(t)
    ensures WellFormed(LoadSubCategories(t, f))
  {
    if f.data.Some? {
      var s := PutAll(t.subcategories, f.data.value, SubCategoryIdOf);
      forall k | k in s ensures s[k].id == k {
        SubCategoryKeyHolds(t.subcategories, f.data.value, k);
      }
    }
  }

  lemma LoadExpensesWellFormed(t: Tables, f: Fetch<Expense>)
    requires WellFormed(t)
    ensures WellFormed(LoadExpenses(t, f))
  {
    if f.data.Some? {
      DownloadsKeyed(t.expenses, f.data.value, t.nextLocalId);
    }
  }

  /** Downloads stored from key `n` on keep every key below the generator
      and under its own `localId`. */
  lemma DownloadsKeyed(m: map<int, LocalExpense>, rows: seq<Expense>, n: int)
    requires forall k :: k in m ==> k < n && m[k].localId == k
    ensures forall k :: k in m + Downloads(rows, n) ==> k < n + |rows| && (m + Downloads(rows, n))[k].localId == k
  {
    var d := Downloads(rows, n);
    DownloadsFacts(rows, n);
    forall k | k in m + d ensures k < n + |rows| && (m + d)[k].localId == k {
      if k in d {
        assert d[k] == FromServerRow(rows[k - n]).(localId := n + (k - n));
      }
    }
  }

  /** A key written by the upserts holds a category whose id is that key. */
  lemma {:induction false} CategoryKeyHolds(m: map<int, Category>, rows: seq<Category>, k: int)
    requires forall j :: j in m ==> m[j].id == j
    requires k in PutAll(m, rows, CategoryId)
    ensures PutAll(m, rows, CategoryId)[k].id == k
    decreases |rows|
  {
    if rows != [] {
      CategoryKeyHolds(m[rows[0].id := rows[0]], rows[1..], k);
    }
  }

  lemma {:induction false} SubCategoryKeyHolds(m: map<int, SubCategory>, rows: seq<SubCategory>, k: int)
    requires forall j :: j in m ==> m[j].id == j
    requires k in PutAll(m, rows, SubCategoryIdOf)
    ensures PutAll(m, rows, SubCategoryIdOf)[k].id == k
    decreases |rows|
  {
    if rows != [] {
      SubCategoryKeyHolds(m[rows[0].id := rows[0]], rows[1..], k);
    }
  }

  /** The stages: the requests issued are a prefix of the three selects in
      order; the timestamp is written exactly when the store had no
      categories and every step succeeded; a failing select makes the run
      fail with that select's error and leaves the later tables as they
      were. */
  lemma BootstrapStages(t: Tables, cats: Fetch<Category>, subs: Fetch<SubCategory>,
                        exps: Fetch<Expense>, now: string)
    ensures var b := BootstrapRun(t, cats, subs, exps, now);
      b.requests <= [SelectAll(CategoriesTable), SelectAll(SubCategoriesTable), SelectAll(ExpensesTable)] &&
      (b.stamp.Some? <==> |t.categories| == 0 && b.outcome.Pass?) &&
      (b.stamp.Some? ==> b.stamp == Some(now) && |b.requests| == 3) &&
      (|t.categories| > 0 ==> b.tables == t && b.requests == []) &&
      (b.outcome.Fail? ==> b.tables.expenses == t.expenses && b.tables.nextLocalId == t.nextLocalId) &&
      (b.outcome.Fail? && |b.requests| == 1 ==> b.tables == t && b.outcome == Fail(cats.error.value)) &&
      (b.outcome.Fail? && |b.requests| == 2 ==> b.tables.subcategories == t.subcategories &&
                                                b.outcome == Fail(subs.error.value))
    ensures var b := BootstrapRun(t, cats, subs, exps, now);
      |t.categories| == 0 && cats.error.None? ==> b.tables.categories == LoadCategories(t, cats).categories
    ensures var b := BootstrapRun(t, cats, subs, exps, now);
      |t.categories| == 0 && cats.error.None? && subs.error.None? ==>
        b.tables.subcategories == LoadSubCategories(LoadCategories(t, cats), subs).subcategories
    ensures var b := BootstrapRun(t, cats, subs, exps, now);
      |t.categories| == 0 && cats.error.Some? ==> b.outcome == Fail(cats.error.value) && |b.requests| == 1
    ensures var b := BootstrapRun(t, cats, subs, exps, now);
      |t.categories| == 0 && cats.error.None? && subs.error.Some? ==>
        b.outcome == Fail(subs.error.value) && |b.requests| == 2
    ensures var b := BootstrapRun(t, cats, subs, exps, now);
      |t.categories| == 0 && cats.error.None? && subs.error.None? && exps.error.Some? ==>
        b.outcome == Fail(exps.error.value) && |b.requests| == 3
    ensures var b := BootstrapRun(t, cats, subs, exps, now);
      |t.categories| == 0 && cats.error.None? && subs.error.None? && exps.error.None? ==>
        b.outcome.Pass? && b.stamp == Some(now)
  {
    if |t.categories| == 0 && cats.error.None? {
      SubCategoriesStageFacts(LoadCategories(t, cats), subs, exps, now);
    }
  }

  /** From the subcategories select on: at most the two remaining selects in
      order, the categories as they were, a failing select failing the run
      with its error, a stamp exactly when both succeed, and a failure
      leaving the expenses (and, on the subcategories select, the
      subcategories) untouched. */
  lemma SubCategoriesStageFacts(t: Tables, subs: Fetch<SubCategory>, exps: Fetch<Expense>, now: string)
    ensures var b := SubCategoriesStage(t, subs, exps, now);
      b.requests <= [SelectAll(SubCategoriesTable), SelectAll(ExpensesTable)] && |b.requests| >= 1 &&
      b.tables.categories == t.categories &&
      (b.stamp.Some? <==> b.outcome.Pass?) &&
      (b.stamp.Some? ==> b.stamp == Some(now) && |b.requests| == 2) &&
      (b.outcome.Fail? ==> b.tables.expenses == t.expenses && b.tables.nextLocalId == t.nextLocalId) &&
      (b.outcome.Fail? && |b.requests| == 1 ==> b.tables == t && b.outcome == Fail(subs.error.value)) &&
      (subs.error.None? ==> b.tables.subcategories == LoadSubCategories(t, subs).subcategories)
    ensures var b := SubCategoriesStage(t, subs, exps, now);
      subs.error.Some? ==> b.outcome == Fail(subs.error.value) && |b.requests| == 1
    ensures var b := SubCategoriesStage(t, subs, exps, now);
      subs.error.None? && exps.error.Some? ==> b.outcome == Fail(exps.error.value) && |b.requests| == 2
    ensures var b := SubCategoriesStage(t, subs, exps, now);
      subs.error.None? && exps.error.None? ==> b.outcome.Pass? && b.stamp == Some(now)
  {
    if subs.error.None? {
      var u := LoadSubCategories(t, subs);
      assert SubCategoriesStage(t, subs, exps, now).tables == ExpensesStage(u, exps, now).tables;
    }
  }

  /** A bootstrap that stores at least one category and then fails on the
      subcategories or expenses select keeps those categories, records no
      timestamp, and leaves the expenses table as it was. Since the store now
      has categories, every later bootstrap is skipped: it sends no request
      and writes nothing, so the missing tables are never downloaded. */
  lemma PartialBootstrapBlocksRetry(t: Tables, cats: Fetch<Category>, subs: Fetch<SubCategory>,
                                    exps: Fetch<Expense>, now: string,
                                    cats2: Fetch<Category>, subs2: Fetch<SubCategory>,
                                    exps2: Fetch<Expense>, now2: string)
    requires |t.categories| == 0 && cats.error.None? && cats.data.Some? && cats.data.value != []
    requires subs.error.Some? || exps.error.Some?
    ensures var b := BootstrapRun(t, cats, subs, exps, now);
      b.outcome.Fail? && b.stamp.None? && |b.tables.categories| > 0 && b.tables.expenses == t.expenses
    ensures var b := BootstrapRun(t, cats, subs, exps, now);
      subs.error.Some? ==> b.tables.subcategories == t.subcategories && b.outcome == Fail(subs.error.value)
    ensures var b := BootstrapRun(t, cats, subs, exps, now);
      BootstrapRun(b.tables, cats2, subs2, exps2, now2) == BootRun(b.tables, [], None, Pass)
  {
    var rows := cats.data.value;
    PutAllKeys(t.categories, rows, CategoryId);
    assert CategoryId(rows[0]) in PutAll(t.categories, rows, CategoryId);
    SubCategoriesStageFacts(LoadCategories(t, cats), subs, exps, now);
  }

  /** `after` is `before` plus every row of `rows`, each stored once, with
      its server id and data and marked as coming from the server, under the
      consecutive keys from `next`; nothing pending was added. */
  ghost predicate DownloadedInto(before: map<int, LocalExpense>, next: int, rows: seq<Expense>,
                                 after: map<int, LocalExpense>)
  {
    (forall i :: 0 <= i < |rows| ==>
       next + i in after && after[next + i].id == Some(rows[i].id) &&
       after[next + i].synced == FromServer && after[next + i].payload.data == rows[i].data) &&
    (forall k :: k in before ==> k in after && after[k] == before[k]) &&
    |after| == |before| + |rows| &&
    (forall k :: k in after && IsPending(after[k]) ==> k in before)
  }

  /** After a complete bootstrap every downloaded row is stored once, with
      its server id, marked as coming from the server (so never pending),
      under consecutive fresh keys; the records already stored are kept, and
      no pending record is added. */
  lemma BootstrapDownloads(t: Tables, cats: Fetch<Category>, subs: Fetch<SubCategory>,
                           exps: Fetch<Expense>, now: string)
    requires WellFormed(t)
    requires |t.categories| == 0 && cats.error.None? && subs.error.None? && exps.error.None? && exps.data.Some?
    ensures DownloadedInto(t.expenses, t.nextLocalId, exps.data.value, BootstrapRun(t, cats, subs, exps, now).tables.expenses)
  {
    var t2 := LoadSubCategories(LoadCategories(t, cats), subs);
    assert t2.expenses == t.expenses && t2.nextLocalId == t.nextLocalId;
    assert BootstrapRun(t, cats, subs, exps, now).tables == LoadExpenses(t2, exps);
    LoadCategoriesWellFormed(t, cats);
    LoadSubCategoriesWellFormed(LoadCategories(t, cats), subs);
    LoadExpensesFacts(t2, exps);
  }

  /** An empty categories answer without an error writes no category, so
      the emptiness guard stays open: the next bootstrap with the same
      answers runs all three selects again and stores every expense a
      second time, under fresh keys. */
  lemma EmptyCategoriesRedownload(t: Tables, subs: Fetch<SubCategory>, exps: Fetch<Expense>,
                                  now: string, now2: string)
    requires WellFormed(t) && |t.categories| == 0
    requires subs.error.None? && exps.error.None? && exps.data.Some?
    ensures var cats := Fetch(Some([]), None);
            var b1 := BootstrapRun(t, cats, subs, exps, now);
            var b2 := BootstrapRun(b1.tables, cats, subs, exps, now2);
            |b1.tables.categories| == 0 && b1.stamp == Some(now) &&
            |b2.requests| == 3 && b2.stamp == Some(now2) &&
            |b2.tables.expenses| == |t.expenses| + 2 * |exps.data.value|
  {
    var cats: Fetch<Category> := Fetch(Some([]), None);
    var b1 := BootstrapRun(t, cats, subs, exps, now);
    assert PutAll(t.categories, [], CategoryId) == t.categories;
    assert b1.tables.categories == t.categories;
    BootstrapDownloads(t, cats, subs, exps, now);
    BootstrapWellFormed(t, cats, subs, exps, now);
    BootstrapDownloads(b1.tables, cats, subs, exps, now2);
  }

  lemma LoadExpensesFacts(t: Tables, f: Fetch<Expense>)
    requires WellFormed(t) && f.data.Some?
    ensures DownloadedInto(t.expenses, t.nextLocalId, f.data.value, LoadExpenses(t, f).expenses)
  {
    assert LoadExpenses(t, f).expenses == t.expenses + Downloads(f.data.value, t.nextLocalId);
    UnionDownloads(t.expenses, t.nextLocalId, f.data.value);
  }

  /** Adding the downloads to a table whose keys are all below `next`. */
  lemma UnionDownloads(before: map<int, LocalExpense>, next: int, rows: seq<Expense>)
    requires forall k :: k in before ==> k < next
    ensures DownloadedInto(before, next, rows, before + Downloads(rows, next))
  {
    var d := Downloads(rows, next);
    var e := before + d;
    DownloadsFacts(rows, next);
    DisjointUnionSize(before, d);
    forall i | 0 <= i < |rows|
      ensures next + i in e && e[next + i] == FromServerRow(rows[i]).(localId := next + i)
    {
      assert next + i in d;
    }
    forall k | k in e && IsPending(e[k]) ensures k in before {
    }
  }

  // ---------------------------------------------------------------------
  // the engine

  class SyncEngine {
    const db: LocalStore
    /** The `expense_tracker_last_sync` entry of the browser's storage. */
    var lastSyncSlot: Option<string>
    /** Every request sent to the backend, in order. */
    var requests: seq<Request>

    ghost predicate Valid()
      reads this, db
    {
      db.Valid()
    }

    constructor (db: LocalStore, slot: Option<string>)
      requires db.Valid()
      ensures Valid() && this.db == db && lastSyncSlot == slot && requests == []
    {
      this.db := db;
      lastSyncSlot := slot;
      requests := [];
    }

    method GetLastSyncTime() returns (t: Option<string>)
      ensures t == lastSyncSlot
    {
      t := lastSyncSlot;
    }

    method SetLastSyncTime(iso: string)
      modifies this`lastSyncSlot
      ensures lastSyncSlot == Some(iso)
    {
      lastSyncSlot := Some(iso);
    }

    /** One push pass. `readError` is the failure of reading the expenses
      table, if it fails; `respond(n, q)` is the backend's answer to `q`
      as the engine's n-th request. Failed writes are not errors: they are
      left pending. */
    method PushChanges(readError: Option<Thrown>, respond: (nat, Request) -> Reply) returns (r: Outcome<Thrown>)
      requires Valid()
      modifies this`requests, db
      ensures Valid()
      ensures r == if readError.Some? then Fail(readError.value) else Pass
      ensures readError.Some? ==> db.expenses == old(db.expenses) && requests == old(requests)
      ensures readError.None? ==>
                db.expenses == PushResult(old(db.expenses), |old(requests)|, respond) &&
                requests == old(requests) + PushRequests(PendingOf(old(db.expenses)))
      ensures db.categories == old(db.categories) && db.subcategories == old(db.subcategories)
      ensures db.nextLocalId == old(db.nextLocalId)
    {
      if readError.Some? {
        return Fail(readError.value);
      }
      var pending := PendingRecords();
      PushPending(pending, respond);
      r := Pass;
    }

    /** Sends one request per record of `pending`, in order, and writes
      each record back according to its reply. */
    method PushPending(pending: seq<LocalExpense>, respond: (nat, Request) -> Reply)
      requires Valid()
      requires forall i :: 0 <= i < |pending| ==> pending[i].localId in db.expenses
      modifies this`requests, db
      ensures Valid()
      ensures db.expenses == PushFrom(old(db.expenses), pending, |old(requests)|, respond)
      ensures requests == old(requests) + PushRequests(pending)
      ensures db.categories == old(db.categories) && db.subcategories == old(db.subcategories)
      ensures db.nextLocalId == old(db.nextLocalId)
    {
      ghost var m0 := db.expenses;
      ghost var base := |requests|;
      assert pending[0..] == pending;
      for i := 0 to |pending|
        invariant db.Valid()
        invariant db.categories == old(db.categories) && db.subcategories == old(db.subcategories)
        invariant db.nextLocalId == old(db.nextLocalId)
        invariant db.expenses.Keys == m0.Keys
        invariant |requests| == base + i
        invariant requests + PushRequests(pending[i..]) == old(requests) + PushRequests(pending)
        invariant PushFrom(db.expenses, pending[i..], base + i, respond) == PushFrom(m0, pending, base, respond)
      {
        PushAt(pending, i, respond, m0, base);
      }
    }

    /** One turn of `PushPending`'s loop: record `i` is pushed, and what is
      left of the pass moves on by one record. */
    method PushAt(pending: seq<LocalExpense>, i: nat, respond: (nat, Request) -> Reply,
                  ghost m0: map<int, LocalExpense>, ghost base: nat)
      requires Valid() && i < |pending|
      requires forall j :: 0 <= j < |pending| ==> pending[j].localId in m0
      requires db.expenses.Keys == m0.Keys && |requests| == base + i
      modifies this`requests, db
      ensures Valid()
      ensures db.expenses.Keys == m0.Keys && |requests| == base + i + 1
      ensures requests + PushRequests(pending[i + 1..]) == old(requests) + PushRequests(pending[i..])
      ensures PushFrom(db.expenses, pending[i + 1..], base + i + 1, respond) ==
              PushFrom(old(db.expenses), pending[i..], base + i, respond)
      ensures db.categories == old(db.categories) && db.subcategories == old(db.subcategories)
      ensures db.nextLocalId == old(db.nextLocalId)
    {
      PushFromUnfold(db.expenses, pending, i, base + i, respond);
      PushRequestsUnfold(pending, i);
      PushOne(pending[i], respond);
    }

    /** `getAll("expenses")` filtered on `synced === false`. */
    method PendingRecords() returns (pending: seq<LocalExpense>)
      requires Valid()
      ensures pending == PendingOf(db.expenses)
      ensures forall i :: 0 <= i < |pending| ==> pending[i].localId in db.expenses
    {
      var all := db.GetAllExpenses();
      pending := Filter(all, IsPending);
      PendingFacts(db.expenses);
    }

    /** Sends the request for one record and handles the reply. */
    method PushOne(item: LocalExpense, respond: (nat, Request) -> Reply)
      requires Valid() && item.localId in db.expenses
      modifies this`requests, db
      ensures Valid()
      ensures db.expenses == PushStep(old(db.expenses), item, |old(requests)|, respond)
      ensures db.expenses.Keys == old(db.expenses).Keys
      ensures requests == old(requests) + [RequestFor(item)]
      ensures db.categories == old(db.categories) && db.subcategories == old(db.subcategories)
      ensures db.nextLocalId == old(db.nextLocalId)
    {
      var req := RequestFor(item);
      var reply := respond(|requests|, req);
      requests := requests + [req];
      HandleReply(item, reply);
      WriteBackKeys(old(db.expenses), item, reply);
    }

    /** Writes a pushed record back after its reply: an accepted update is
      marked synced; an accepted insert that returned a row also takes the
      server id; anything else writes nothing. */
    method HandleReply(item: LocalExpense, reply: Reply)
      requires Valid() && item.localId in db.expenses
      modifies db
      ensures Valid()
      ensures db.expenses == WriteBack(old(db.expenses), item, reply)
      ensures db.categories == old(db.categories) && db.subcategories == old(db.subcategories)
      ensures db.nextLocalId == old(db.nextLocalId)
    {
      if HasServerId(item) {
        if reply.Accepted? {
          db.PutExpense(item.(synced := Synced));
        }
      } else {
        if reply.Accepted? && reply.returnedId.Some? {
          db.PutExpense(item.(id := reply.returnedId, synced := Synced));
        }
      }
    }

    /** `put` of every category, in order, in one transaction. */
    method StoreCategories(rows: seq<Category>)
      requires Valid()
      modifies db
      ensures Valid()
      ensures db.categories == PutAll(old(db.categories), rows, CategoryId)
      ensures db.subcategories == old(db.subcategories) && db.expenses == old(db.expenses)
      ensures db.nextLocalId == old(db.nextLocalId)
    {
      assert rows[0..] == rows;
      for i := 0 to |rows|
        invariant db.Valid()
        invariant db.subcategories == old(db.subcategories) && db.expenses == old(db.expenses)
        invariant db.nextLocalId == old(db.nextLocalId)
        invariant PutAll(db.categories, rows[i..], CategoryId) == PutAll(old(db.categories), rows, CategoryId)
      {
        assert rows[i..][1..] == rows[i + 1..];
        db.PutCategory(rows[i]);
      }
    }

    /** `put` of every subcategory, in order, in one transaction. */
    method StoreSubCategories(rows: seq<SubCategory>)
      requires Valid()
      modifies db
      ensures Valid()
      ensures db.subcategories == PutAll(old(db.subcategories), rows, SubCategoryIdOf)
      ensures db.categories == old(db.categories) && db.expenses == old(db.expenses)
      ensures db.nextLocalId == old(db.nextLocalId)
    {
      assert rows[0..] == rows;
      for i := 0 to |rows|
        invariant db.Valid()
        invariant db.categories == old(db.categories) && db.expenses == old(db.expenses)
        invariant db.nextLocalId == old(db.nextLocalId)
        invariant PutAll(db.subcategories, rows[i..], SubCategoryIdOf) == PutAll(old(db.subcategories), rows, SubCategoryIdOf)
      {
        assert rows[i..][1..] == rows[i + 1..];
        db.PutSubCategory(rows[i]);
      }
    }

    /** Stores every downloaded expense with `synced: 1` and no local key,
      so each takes the generator's next key. */
    method StoreDownloads(rows: seq<Expense>)
      requires Valid()
      modifies db
      ensures Valid()
      ensures db.expenses == old(db.expenses) + Downloads(rows, old(db.nextLocalId))
      ensures db.nextLocalId == old(db.nextLocalId) + |rows|
      ensures db.categories == old(db.categories) && db.subcategories == old(db.subcategories)
    {
      assert rows[0..] == rows;
      for i := 0 to |rows|
        invariant db.Valid()
        invariant db.categories == old(db.categories) && db.subcategories == old(db.subcategories)
        invariant db.nextLocalId == old(db.nextLocalId) + i
        invariant db.expenses + Downloads(rows[i..], old(db.nextLocalId) + i) ==
                  old(db.expenses) + Downloads(rows, old(db.nextLocalId))
      {
        StoreDownloadAt(rows, i);
      }
    }

    /** One turn of `StoreDownloads`' loop: row `i` moves from the rows still
      to come into the store. */
    method StoreDownloadAt(rows: seq<Expense>, i: nat)
      requires Valid() && i < |rows|
      modifies db
      ensures Valid()
      ensures db.expenses + Downloads(rows[i + 1..], db.nextLocalId) ==
              old(db.expenses) + Downloads(rows[i..], old(db.nextLocalId))
      ensures db.nextLocalId == old(db.nextLocalId) + 1
      ensures db.categories == old(db.categories) && db.subcategories == old(db.subcategories)
    {
      ghost var before := db.expenses;
      var key := db.AddExpense(FromServerRow(rows[i]));
      DownloadStep(before, rows, i, key);
    }

    /** The one-time download; see `BootstrapRun`. `now` is the current
      time as an ISO string. */
    method Bootstrap(cats: Fetch<Category>, subs: Fetch<SubCategory>, exps: Fetch<Expense>, now: string)
      returns (r: Outcome<Thrown>)
      requires Valid()
      modifies this, db
      ensures Valid()
      ensures var b := BootstrapRun(old(db.Snapshot()), cats, subs, exps, now);
        db.Snapshot() == b.tables && requests == old(requests) + b.requests && r == b.outcome &&
        lastSyncSlot == (if b.stamp.Some? then b.stamp else old(lastSyncSlot))
    {
      var catCount := db.CountCategories();
      if catCount > 0 {
        return Pass;
      }
      requests := requests + [SelectAll(CategoriesTable)];
      if cats.error.Some? {
        return Fail(cats.error.value);
      }
      if cats.data.Some? {
        StoreCategories(cats.data.value);
      }
      r := BootstrapSubCategories(subs, exps, now);
    }

    /** The subcategories step of `bootstrap` and what follows it. */
    method BootstrapSubCategories(subs: Fetch<SubCategory>, exps: Fetch<Expense>, now: string)
      returns (r: Outcome<Thrown>)
      requires Valid()
      modifies this, db
      ensures Valid()
      ensures var b := SubCategoriesStage(old(db.Snapshot()), subs, exps, now);
        db.Snapshot() == b.tables && requests == old(requests) + b.requests && r == b.outcome &&
        lastSyncSlot == (if b.stamp.Some? then b.stamp else old(lastSyncSlot))
    {
      requests := requests + [SelectAll(SubCategoriesTable)];
      if subs.error.Some? {
        return Fail(subs.error.value);
      }
      if subs.data.Some? {
        StoreSubCategories(subs.data.value);
      }
      r := BootstrapExpenses(exps, now);
    }

    /** The expenses step of `bootstrap` and the timestamp. */
    method BootstrapExpenses(exps: Fetch<Expense>, now: string) returns (r: Outcome<Thrown>)
      requires Valid()
      modifies this, db
      ensures Valid()
      ensures var b := ExpensesStage(old(db.Snapshot()), exps, now);
        db.Snapshot() == b.tables && requests == old(requests) + b.requests && r == b.outcome &&
        lastSyncSlot == (if b.stamp.Some? then b.stamp else old(lastSyncSlot))
    {
      requests := requests + [SelectAll(ExpensesTable)];
      if exps.error.Some? {
        return Fail(exps.error.value);
      }
      if exps.data.Some? {
        StoreDownloads(exps.data.value);
      }
      SetLastSyncTime(now);
      r := Pass;
    }
  }
}
