/**
 * Operations on the `blog_posts` table that the browser-side and the
 * server-side blog services share: the two "newest first" orders and the
 * single-row update, publish, delete and lookup by id. Each write returns
 * the store's response together with the table it leaves behind.
 *
 * `fault` is the store's verdict on a request (a network or permission
 * failure): `Some(message)` means the request was rejected and nothing
 * changed.
 */
module Posts {
  import opened Wrappers
  import opened Types
  import opened Table

  /** The author id the browser-side service filters on when nobody is signed in. */
  const NilUuid := "00000000-0000-0000-0000-000000000000"

  /** A store response and the table after the request. */
  datatype Write<R> = Write(response: Result<R, Failure>, table: seq<BlogPost>)

  // ---------------------------------------------------------------------------
  // Orders
  // ---------------------------------------------------------------------------

  /** `order('created_at', { ascending: false })`. */
  predicate NewerCreated(a: BlogPost, b: BlogPost) {
    a.createdAt >= b.createdAt
  }

  /** `order('published_at', { ascending: false })`; as in PostgreSQL, a
      descending order lists rows without a value first. */
  predicate NewerPublished(a: BlogPost, b: BlogPost) {
    match a.publishedAt
    case None => true
    case Some(x) => b.publishedAt.Some? && x >= b.publishedAt.value
  }

  lemma OrdersArePreorders()
    ensures TotalPreorder(NewerCreated)
    ensures TotalPreorder(NewerPublished)
  {
  }

  // ---------------------------------------------------------------------------
  // Row filters
  // ---------------------------------------------------------------------------

  predicate HasId(id: string, p: BlogPost) { p.id == id }

  predicate IsPublished(p: BlogPost) { p.status == Published }

  /** The rows whose id is `id`. */
  function RowsWithId(rows: seq<BlogPost>, id: string): (r: seq<BlogPost>)
    ensures forall p :: p in r <==> p in rows && p.id == id
  {
    Where(rows, p => HasId(id, p))
  }

  // ---------------------------------------------------------------------------
  // Single-row writes
  // ---------------------------------------------------------------------------

  /** The table after `.update(change).eq('id', id)`: `change` is applied to
      the matching rows, and every other row stays where and what it was. */
  function UpdateRows(rows: seq<BlogPost>, id: string, change: BlogPost -> BlogPost): (r: seq<BlogPost>)
    ensures |r| == |rows|
    ensures forall i :: 0 <= i < |rows| && rows[i].id != id ==> r[i] == rows[i]
    ensures forall i :: 0 <= i < |rows| && rows[i].id == id ==> r[i] == change(rows[i])
  {
    seq(|rows|, i requires 0 <= i < |rows| => if rows[i].id == id then change(rows[i]) else rows[i])
  }

  /** `updatePost(id, updates)`: `.update({...updates, updated_at: now})
      .eq('id', id).select().single()`. */
  function UpdatePost(rows: seq<BlogPost>, id: string, patch: PostPatch, now: Timestamp,
                      fault: Option<string>): (w: Write<BlogPost>)
    ensures fault.Some? ==> w.response.Err? && w.table == rows
    ensures |w.table| == |rows|
    ensures forall i :: 0 <= i < |rows| && rows[i].id != id ==> w.table[i] == rows[i]
    ensures fault.None? ==>
              forall i :: 0 <= i < |rows| && rows[i].id == id ==> w.table[i] == ApplyPatch(patch, rows[i], now)
    ensures w.response.Ok? <==> fault.None? && |RowsWithId(rows, id)| == 1
    ensures w.response.Ok? ==> w.response.value.id == id && w.response.value in w.table
                               && w.response.value.updatedAt == now
  {
    if fault.Some? then Write(Err(StoreFailure(fault.value)), rows)
    else
      var table := UpdateRows(rows, id, p => ApplyPatch(patch, p, now));
      var changed := RowsWithId(table, id);
      CountMatchesPreserved(rows, table, id, p => ApplyPatch(patch, p, now));
      Write(Single(changed), table)
  }

  /** An update that keeps ids selects as many rows after as it matched before. */
  lemma {:induction false} CountMatchesPreserved(rows: seq<BlogPost>, table: seq<BlogPost>, id: string,
                                                 change: BlogPost -> BlogPost)
    requires |table| == |rows|
    requires forall i :: 0 <= i < |rows| && rows[i].id != id ==> table[i] == rows[i]
    requires forall i :: 0 <= i < |rows| && rows[i].id == id ==> table[i] == change(rows[i])
    requires forall p :: change(p).id == p.id
    ensures |RowsWithId(table, id)| == |RowsWithId(rows, id)|
  {
    if |rows| > 0 {
      CountMatchesPreserved(rows[1..], table[1..], id, change);
      assert table[0].id == rows[0].id;
    }
  }

  /** `publishPost(id)`: status `published`, `published_at` and `updated_at`
      from two separate clock readings. */
  function PublishPost(rows: seq<BlogPost>, id: string, publishedAt: Timestamp, updatedAt: Timestamp,
                       fault: Option<string>): (w: Write<BlogPost>)
    ensures fault.Some? ==> w.response.Err? && w.table == rows
    ensures |w.table| == |rows|
    ensures forall i :: 0 <= i < |rows| && rows[i].id != id ==> w.table[i] == rows[i]
    ensures fault.None? ==>
              forall i :: 0 <= i < |rows| && rows[i].id == id ==>
                w.table[i] == rows[i].(status := Published, publishedAt := Some(publishedAt), updatedAt := updatedAt)
    ensures w.response.Ok? <==> fault.None? && |RowsWithId(rows, id)| == 1
    ensures w.response.Ok? ==> w.response.value.id == id && w.response.value.status == Published
                               && w.response.value in w.table
  {
    if fault.Some? then Write(Err(StoreFailure(fault.value)), rows)
    else
      var change := (p: BlogPost) => p.(status := Published, publishedAt := Some(publishedAt), updatedAt := updatedAt);
      var table := UpdateRows(rows, id, change);
      CountMatchesPreserved(rows, table, id, change);
      Write(Single(RowsWithId(table, id)), table)
  }

  /** Publishing twice leaves the same table as publishing once at the
      later instants: only the timestamps move. */
  lemma PublishIdempotent(rows: seq<BlogPost>, id: string, t1: Timestamp, t2: Timestamp,
                          t3: Timestamp, t4: Timestamp)
    ensures PublishPost(PublishPost(rows, id, t1, t2, None).table, id, t3, t4, None).table
            == PublishPost(rows, id, t3, t4, None).table
  {
  }

  /** `deletePost(id)`: every row with that id goes, every other row stays in
      order; only a store rejection is an error. */
  function DeletePost(rows: seq<BlogPost>, id: string, fault: Option<string>): (w: Write<()>)
    ensures w.response.Err? <==> fault.Some?
    ensures fault.Some? ==> w.table == rows
    ensures fault.None? ==> forall p :: p in w.table <==> p in rows && p.id != id
    ensures fault.None? ==> multiset(w.table) <= multiset(rows)
    ensures fault.None? ==> forall p: BlogPost :: p.id != id ==> multiset(w.table)[p] == multiset(rows)[p]
  {
    if fault.Some? then Write(Err(StoreFailure(fault.value)), rows)
    else Write(Ok(()), Where(rows, p => !HasId(id, p)))
  }

  /** Deleting an id no row carries succeeds and changes nothing. */
  lemma DeleteAbsentIsNoOp(rows: seq<BlogPost>, id: string)
    requires forall i :: 0 <= i < |rows| ==> rows[i].id != id
    ensures DeletePost(rows, id, None) == Write(Ok(()), rows)
  {
    WhereAll(rows, p => !HasId(id, p));
  }

  /** `getPostById(id)`: `.eq('id', id).single()`. */
  function GetPostById(rows: seq<BlogPost>, id: string, fault: Option<string>): (r: Result<Option<BlogPost>, Failure>)
    ensures r.Ok? <==> fault.None? && |RowsWithId(rows, id)| == 1
    ensures r.Ok? ==> r.value.Some? && r.value.value in rows && r.value.value.id == id
  {
    if fault.Some? then Err(StoreFailure(fault.value))
    else
      match Single(RowsWithId(rows, id))
      case Ok(p) => Ok(Some(p))
      case Err(e) => Err(e)
  }
}
