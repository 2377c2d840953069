/**
 * The `items` table (app/models/item.py): one row per trend, identified by
 * an integer primary key `id`, with a UNIQUE `url`, a `hot_score` that
 * defaults to 0.0, a `created_at` the database fills in on insert, and an
 * `updated_at` that is written only by an UPDATE.
 */
module Items {
  import opened Common
  import opened Unicode

  /** A stored row. Timestamps are readings of the database clock. */
  datatype Item = Item(
    id: int,
    title: Text,
    url: string,
    source: Text,
    hotScore: real,
    createdAt: int,
    updatedAt: Option<int>)

  /** An `Item(...)` built by the application and not inserted yet: only the
      columns the application supplies; `hot_score` may be left out. */
  datatype NewItem = NewItem(title: Text, url: string, source: Text, hotScore: Option<real>)

  /** The column default of `hot_score`. */
  const DefaultHotScore: real := 0.0

  /** The row an INSERT of `n` writes: the supplied columns, the column
      default where `hot_score` was left out, the server clock in
      `created_at`, and no `updated_at` (it has only an on-update value). */
  function Insert(n: NewItem, id: int, now: int): (r: Item)
    ensures r.id == id && r.title == n.title && r.url == n.url && r.source == n.source
    ensures n.hotScore.Some? ==> r.hotScore == n.hotScore.value
  {
    Item(id, n.title, n.url, n.source, n.hotScore.GetOr(DefaultHotScore), now, None)
  }

  /** Column defaults: an INSERT that leaves out `hot_score` stores 0.0, and no
      INSERT sets `updated_at`. */
  lemma InsertDefaults(n: NewItem, id: int, now: int)
    ensures n.hotScore.None? ==> Insert(n, id, now).hotScore == 0.0
    ensures Insert(n, id, now).updatedAt.None? && Insert(n, id, now).createdAt == now
  {
  }
}
