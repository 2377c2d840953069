/**
 * The database session the scraper works through (a SQLAlchemy session
 * made with autoflush=False, app/db/database.py line 11): committed rows of
 * the `items` table, plus the objects `add`ed since the last commit. A query
 * reads committed rows only, because nothing is flushed before `commit`.
 * `commit` inserts all pending objects as one transaction or none of them.
 */
module Store {
  import opened Common
  import opened Items

  /** The table's constraints: each row is filed under its url, which makes
      `url` UNIQUE, and ids are positive, distinct and below the next id.
      The next id is what SQLite assigns: 1 on an empty table, otherwise the
      largest id plus one. */
  ghost predicate Consistent(rows: map<string, Item>, nextId: int) {
    && 1 <= nextId
    && (forall u :: u in rows ==> rows[u].url == u && 1 <= rows[u].id < nextId)
    && (forall u, v :: u in rows && v in rows && rows[u].id == rows[v].id ==> u == v)
    && (rows == map[] ==> nextId == 1)
    && (rows != map[] ==> exists u :: u in rows && rows[u].id == nextId - 1)
  }

  /** Under the constraints, the next id is 1 exactly on an empty table and
      lies above every stored id. */
  lemma ConsistentNextId(rows: map<string, Item>, nextId: int)
    requires Consistent(rows, nextId)
    ensures rows == map[] <==> nextId == 1
    ensures forall u :: u in rows ==> rows[u].id < nextId
  {
  }

  /** Inserting `pending` keeps `url` unique: no pending url is stored yet and
      no two pending objects share one. */
  predicate CanInsert(rows: map<string, Item>, pending: seq<NewItem>): (r: bool)
    ensures r ==> forall p :: p in pending ==> p.url !in rows
    ensures r ==> forall p, q :: p in pending && q in pending && p.url == q.url ==> p == q
  {
    && (forall i :: 0 <= i < |pending| ==> pending[i].url !in rows)
    && (forall i, j :: 0 <= i < j < |pending| ==> pending[i].url != pending[j].url)
  }

  /** The table after the INSERTs of `pending`, in order, with ids from `nextId` on. */
  function InsertAll(rows: map<string, Item>, pending: seq<NewItem>, nextId: int, now: int): (r: map<string, Item>)
    ensures rows.Keys <= r.Keys
    decreases |pending|
  {
    if pending == [] then rows
    else InsertAll(rows[pending[0].url := Insert(pending[0], nextId, now)], pending[1..], nextId + 1, now)
  }

  /** What a successful commit does to the table: existing rows stay as they
      were, each pending object becomes a row with the next id, and nothing
      else appears. */
  lemma InsertAllEffect(rows: map<string, Item>, pending: seq<NewItem>, nextId: int, now: int)
    requires CanInsert(rows, pending)
    ensures var r := InsertAll(rows, pending, nextId, now);
      && (forall u :: u in rows ==> u in r && r[u] == rows[u])
      && (forall i :: 0 <= i < |pending| ==> pending[i].url in r && r[pending[i].url] == Insert(pending[i], nextId + i, now))
      && (forall u :: u in r ==> u in rows || exists i :: 0 <= i < |pending| && pending[i].url == u)
      && |r| == |rows| + |pending|
  {
    InsertAllKeeps(rows, pending, nextId, now);
    InsertAllPlaces(rows, pending, nextId, now);
    InsertAllOnly(rows, pending, nextId, now);
    InsertAllSize(rows, pending, nextId, now);
  }

  lemma {:induction false} InsertAllKeeps(rows: map<string, Item>, pending: seq<NewItem>, nextId: int, now: int)
    requires CanInsert(rows, pending)
    ensures var r := InsertAll(rows, pending, nextId, now);
      forall u :: u in rows ==> u in r && r[u] == rows[u]
    decreases |pending|
  {
    if pending != [] {
      var row := Insert(pending[0], nextId, now);
      CanInsertTail(rows, pending, row);
      InsertAllKeeps(rows[pending[0].url := row], pending[1..], nextId + 1, now);
    }
  }

  lemma {:induction false} InsertAllPlaces(rows: map<string, Item>, pending: seq<NewItem>, nextId: int, now: int)
    requires CanInsert(rows, pending)
    ensures var r := InsertAll(rows, pending, nextId, now);
      forall i :: 0 <= i < |pending| ==> pending[i].url in r && r[pending[i].url] == Insert(pending[i], nextId + i, now)
    decreases |pending|
  {
    if pending != [] {
      var row := Insert(pending[0], nextId, now);
      var rows', tail := rows[pending[0].url := row], pending[1..];
      var r := InsertAll(rows', tail, nextId + 1, now);
      CanInsertTail(rows, pending, row);
      InsertAllKeeps(rows', tail, nextId + 1, now);
      InsertAllPlaces(rows', tail, nextId + 1, now);
      forall i | 0 <= i < |pending|
        ensures pending[i].url in r && r[pending[i].url] == Insert(pending[i], nextId + i, now)
      {
        if i > 0 { assert pending[i] == tail[i - 1]; }
      }
    }
  }

  lemma {:induction false} InsertAllOnly(rows: map<string, Item>, pending: seq<NewItem>, nextId: int, now: int)
    ensures var r := InsertAll(rows, pending, nextId, now);
      forall u :: u in r ==> u in rows || exists i :: 0 <= i < |pending| && pending[i].url == u
    decreases |pending|
  {
    if pending != [] {
      var rows', tail := rows[pending[0].url := Insert(pending[0], nextId, now)], pending[1..];
      var r := InsertAll(rows', tail, nextId + 1, now);
      InsertAllOnly(rows', tail, nextId + 1, now);
      forall u | u in r ensures u in rows || exists i :: 0 <= i < |pending| && pending[i].url == u {
        if u !in rows' {
          var k :| 0 <= k < |tail| && tail[k].url == u;
          assert pending[k + 1].url == u;
        } else if u !in rows {
          assert pending[0].url == u;
        }
      }
    }
  }

  lemma {:induction false} InsertAllSize(rows: map<string, Item>, pending: seq<NewItem>, nextId: int, now: int)
    requires CanInsert(rows, pending)
    ensures |InsertAll(rows, pending, nextId, now)| == |rows| + |pending|
    decreases |pending|
  {
    if pending != [] {
      var row := Insert(pending[0], nextId, now);
      CanInsertTail(rows, pending, row);
      InsertAllSize(rows[pending[0].url := row], pending[1..], nextId + 1, now);
    }
  }

  /** After the first INSERT the rest of the batch can still be inserted. */
  lemma CanInsertTail(rows: map<string, Item>, pending: seq<NewItem>, row: Item)
    requires CanInsert(rows, pending) && pending != []
    ensures CanInsert(rows[pending[0].url := row], pending[1..])
  {
    var rows', tail := rows[pending[0].url := row], pending[1..];
    forall i | 0 <= i < |tail| ensures tail[i].url !in rows' {
      assert tail[i] == pending[i + 1];
    }
    forall i, j | 0 <= i < j < |tail| ensures tail[i].url != tail[j].url {
      assert tail[i] == pending[i + 1] && tail[j] == pending[j + 1];
    }
  }

  /** A successful commit keeps the table's constraints. */
  lemma InsertAllConsistent(rows: map<string, Item>, pending: seq<NewItem>, nextId: int, now: int)
    requires Consistent(rows, nextId) && CanInsert(rows, pending)
    ensures Consistent(InsertAll(rows, pending, nextId, now), nextId + |pending|)
  {
    InsertAllEffect(rows, pending, nextId, now);
    InsertAllFiled(rows, pending, nextId, now);
    InsertAllIdsDistinct(rows, pending, nextId, now);
    InsertAllNextId(rows, pending, nextId, now);
  }

  lemma InsertAllFiled(rows: map<string, Item>, pending: seq<NewItem>, nextId: int, now: int)
    requires Consistent(rows, nextId) && CanInsert(rows, pending)
    ensures var r := InsertAll(rows, pending, nextId, now);
      forall u :: u in r ==> r[u].url == u && 1 <= r[u].id < nextId + |pending|
  {
    var r := InsertAll(rows, pending, nextId, now);
    InsertAllEffect(rows, pending, nextId, now);
    forall u | u in r ensures r[u].url == u && 1 <= r[u].id < nextId + |pending| {
      if u !in rows {
        var i :| 0 <= i < |pending| && pending[i].url == u;
      }
    }
  }

  lemma InsertAllIdsDistinct(rows: map<string, Item>, pending: seq<NewItem>, nextId: int, now: int)
    requires Consistent(rows, nextId) && CanInsert(rows, pending)
    ensures var r := InsertAll(rows, pending, nextId, now);
      forall u, v :: u in r && v in r && r[u].id == r[v].id ==> u == v
  {
    var r := InsertAll(rows, pending, nextId, now);
    InsertAllEffect(rows, pending, nextId, now);
    forall u, v | u in r && v in r && r[u].id == r[v].id ensures u == v {
      if u !in rows {
        var i :| 0 <= i < |pending| && pending[i].url == u;
        if v !in rows {
          var j :| 0 <= j < |pending| && pending[j].url == v;
          assert r[u].id == nextId + i && r[v].id == nextId + j;
        }
      }
    }
  }

  /** After a commit the counter is again SQLite's next id. */
  lemma InsertAllNextId(rows: map<string, Item>, pending: seq<NewItem>, nextId: int, now: int)
    requires Consistent(rows, nextId) && CanInsert(rows, pending)
    ensures var r := InsertAll(rows, pending, nextId, now);
      && (r == map[] ==> nextId + |pending| == 1)
      && (r != map[] ==> exists u :: u in r && r[u].id == nextId + |pending| - 1)
  {
    var r := InsertAll(rows, pending, nextId, now);
    InsertAllKeeps(rows, pending, nextId, now);
    InsertAllPlaces(rows, pending, nextId, now);
    if pending != [] {
      var last := pending[|pending| - 1];
      assert last.url in r && r[last.url].id == nextId + |pending| - 1;
    } else if r != map[] {
      var u :| u in rows && rows[u].id == nextId - 1;
      assert u in r && r[u].id == nextId - 1;
    }
  }

  /** A database session: the committed table and the objects added since. */
  class Session {
    var rows: map<string, Item>
    var pending: seq<NewItem>
    var nextId: int

    ghost predicate Valid()
      reads this
    {
      Consistent(rows, nextId)
    }

    /** `SessionLocal()`: a session on the table as earlier runs left it,
        with nothing pending. */
    constructor (table: map<string, Item>, next: int)
      requires Consistent(table, next)
      ensures Valid() && rows == table && pending == [] && nextId == next
    {
      rows, pending, nextId := table, [], next;
    }

    /** `query(Item).filter(Item.url == url).first()`: the committed row with
        that url, if any; pending objects are not seen. */
    function Query(url: string): (r: Option<Item>)
      reads this
      requires Valid()
      ensures r.Some? <==> url in rows
      ensures r.Some? ==> r.value in rows.Values && r.value.url == url
      ensures r.None? ==> forall it :: it in rows.Values ==> it.url != url
    {
      if url in rows then Some(rows[url]) else None
    }

    /** `add(n)`: the object joins the pending set; the table is not touched. */
    method Add(n: NewItem)
      requires Valid()
      modifies this`pending
      ensures Valid()
      ensures pending == old(pending) + [n]
    {
      pending := pending + [n];
    }

    /** `commit()`: inserts every pending object in one transaction. It fails,
        changing nothing, when an insert would break url uniqueness or the
        database reports another error (`fault`). */
    method Commit(now: int, fault: bool) returns (ok: bool)
      requires Valid()
      modifies this
      ensures Valid()
      ensures ok <==> CanInsert(old(rows), old(pending)) && !fault
      ensures ok ==>
        && rows == InsertAll(old(rows), old(pending), old(nextId), now)
        && nextId == old(nextId) + |old(pending)| && pending == []
      ensures !ok ==> rows == old(rows) && nextId == old(nextId) && pending == old(pending)
    {
      ok := CanInsert(rows, pending) && !fault;
      if ok {
        InsertAllConsistent(rows, pending, nextId, now);
        rows, nextId, pending := InsertAll(rows, pending, nextId, now), nextId + |pending|, [];
      }
    }

    /** `rollback()`: the pending objects are discarded; the table is not touched. */
    method Rollback()
      requires Valid()
      modifies this`pending
      ensures Valid()
      ensures pending == []
    {
      pending := [];
    }
  }
}
