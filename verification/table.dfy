/**
 * The hosted store's query vocabulary over a table held as a sequence of
 * rows: equality and OR filters (`Where`), `ORDER BY ... DESC` (`Sort` over
 * a total preorder), `.single()` and `count`.
 *
 * The hosted store decides in what order rows with equal sort keys come
 * back; `Sort` fixes one such order, and no contract here depends on it.
 */
module Table {
  import opened Wrappers

  /** Why a call to the store, the auth provider or the page failed. */
  datatype Failure =
    | AuthFailure(message: string)       // the auth provider reported an error
    | StoreFailure(message: string)      // the store rejected the request
    | NotSingleRow(matched: nat)         // `.single()` saw zero or several rows
    | Thrown(message: string)            // an exception raised by the page itself

  // ---------------------------------------------------------------------------
  // Filters
  // ---------------------------------------------------------------------------

  /** The rows that satisfy `keep`, row by row in table order. */
  function Filter<T>(rows: seq<T>, keep: T -> bool): seq<T>
  {
    if |rows| == 0 then []
    else (if keep(rows[0]) then [rows[0]] else []) + Filter(rows[1..], keep)
  }

  lemma {:induction false} FilterKeepsMatches<T(!new)>(rows: seq<T>, keep: T -> bool)
    ensures |Filter(rows, keep)| <= |rows|
    ensures forall i :: 0 <= i < |Filter(rows, keep)| ==> keep(Filter(rows, keep)[i])
    ensures forall x :: x in Filter(rows, keep) <==> x in rows && keep(x)
  {
    if |rows| > 0 {
      FilterKeepsMatches(rows[1..], keep);
      var head := if keep(rows[0]) then [rows[0]] else [];
      var rest := Filter(rows[1..], keep);
      assert Filter(rows, keep) == head + rest;
      assert rows == [rows[0]] + rows[1..];
    }
  }

  lemma {:induction false} FilterCounts<T(!new)>(rows: seq<T>, keep: T -> bool)
    ensures multiset(Filter(rows, keep)) <= multiset(rows)
    ensures forall x :: keep(x) ==> multiset(Filter(rows, keep))[x] == multiset(rows)[x]
  {
    if |rows| > 0 {
      FilterCounts(rows[1..], keep);
      var head := if keep(rows[0]) then [rows[0]] else [];
      var rest := Filter(rows[1..], keep);
      assert Filter(rows, keep) == head + rest;
      assert multiset(Filter(rows, keep)) == multiset(head) + multiset(rest);
      assert rows == [rows[0]] + rows[1..];
      assert multiset(rows) == multiset([rows[0]]) + multiset(rows[1..]);
    }
  }

  lemma {:induction false} FilterAppend<T>(a: seq<T>, b: seq<T>, keep: T -> bool)
    ensures Filter(a + b, keep) == Filter(a, keep) + Filter(b, keep)
  {
    if |a| == 0 {
      assert a + b == b;
    } else {
      var head := if keep(a[0]) then [a[0]] else [];
      var rest := a[1..] + b;
      assert (a + b)[0] == a[0] && (a + b)[1..] == rest;
      FilterAppend(a[1..], b, keep);
      calc {
        Filter(a + b, keep);
        head + Filter(rest, keep);
        head + (Filter(a[1..], keep) + Filter(b, keep));
        (head + Filter(a[1..], keep)) + Filter(b, keep);
        Filter(a, keep) + Filter(b, keep);
      }
    }
  }

  /** `.eq(...)`/`.or(...)`: the rows that satisfy `keep`; each passing row
      as often as the table holds it and nothing else. */
  function Where<T(!new)>(rows: seq<T>, keep: T -> bool): (r: seq<T>)
    ensures |r| <= |rows|
    ensures forall i :: 0 <= i < |r| ==> keep(r[i])
    ensures forall x :: x in r <==> x in rows && keep(x)
    ensures multiset(r) <= multiset(rows)
    ensures forall x :: keep(x) ==> multiset(r)[x] == multiset(rows)[x]
  {
    FilterKeepsMatches(rows, keep);
    FilterCounts(rows, keep);
    Filter(rows, keep)
  }

  /** Filtering keeps table order: the rows of a concatenation that pass are
      those of the first part followed by those of the second. */
  lemma WhereAppend<T(!new)>(a: seq<T>, b: seq<T>, keep: T -> bool)
    ensures Where(a + b, keep) == Where(a, keep) + Where(b, keep)
  {
    FilterAppend(a, b, keep);
  }

  /** A single row passes alone or not at all; with `WhereAppend` this fixes
      the result of `Where` on every table, order included. */
  lemma WhereSingleton<T(!new)>(x: T, keep: T -> bool)
    ensures Where([x], keep) == if keep(x) then [x] else []
  {
    assert [x][1..] == [];
  }

  /** Filtering with two predicates that agree on the table gives the same rows. */
  lemma {:induction false} WhereCongruent<T(!new)>(rows: seq<T>, f: T -> bool, g: T -> bool)
    requires forall i :: 0 <= i < |rows| ==> f(rows[i]) == g(rows[i])
    ensures Where(rows, f) == Where(rows, g)
  {
    if |rows| > 0 {
      WhereCongruent(rows[1..], f, g);
    }
  }

  /** A filter that every row passes returns the table unchanged. */
  lemma {:induction false} WhereAll<T(!new)>(rows: seq<T>, keep: T -> bool)
    requires forall i :: 0 <= i < |rows| ==> keep(rows[i])
    ensures Where(rows, keep) == rows
  {
    if |rows| > 0 {
      WhereAll(rows[1..], keep);
      assert rows == [rows[0]] + rows[1..];
    }
  }

  /** `.single()`: exactly one matching row, otherwise an error. */
  function Single<T>(rows: seq<T>): (r: Result<T, Failure>)
    ensures r.Ok? <==> |rows| == 1
    ensures r.Ok? ==> r.value == rows[0]
    ensures r.Err? ==> r.error == NotSingleRow(|rows|)
  {
    if |rows| == 1 then Ok(rows[0]) else Err(NotSingleRow(|rows|))
  }

  /** `count: 'exact'` over a filter, counted row by row. */
  function CountWhere<T(!new)>(rows: seq<T>, keep: T -> bool): (n: nat)
    ensures n <= |rows|
    ensures n == 0 <==> forall i :: 0 <= i < |rows| ==> !keep(rows[i])
  {
    if |rows| == 0 then 0
    else (if keep(rows[0]) then 1 else 0) + CountWhere(rows[1..], keep)
  }

  /** The count is the number of rows the same filter returns. */
  lemma {:induction false} CountIsFilterLength<T(!new)>(rows: seq<T>, keep: T -> bool)
    ensures CountWhere(rows, keep) == |Where(rows, keep)|
  {
    if |rows| > 0 {
      CountIsFilterLength(rows[1..], keep);
    }
  }

  /** Counting a table split in two adds the counts of the parts. */
  lemma {:induction false} CountWhereAppend<T(!new)>(a: seq<T>, b: seq<T>, keep: T -> bool)
    ensures CountWhere(a + b, keep) == CountWhere(a, keep) + CountWhere(b, keep)
  {
    if |a| == 0 {
      assert a + b == b;
    } else {
      assert (a + b)[1..] == a[1..] + b;
      CountWhereAppend(a[1..], b, keep);
    }
  }

  // ---------------------------------------------------------------------------
  // Ordering
  // ---------------------------------------------------------------------------

  /** `before(a, b)`: `a` may be listed ahead of `b`. */
  ghost predicate TotalPreorder<T(!new)>(before: (T, T) -> bool) {
    && (forall a, b :: before(a, b) || before(b, a))
    && (forall a, b, c :: before(a, b) && before(b, c) ==> before(a, c))
  }

  predicate Sorted<T>(s: seq<T>, before: (T, T) -> bool) {
    forall i, j :: 0 <= i < j < |s| ==> before(s[i], s[j])
  }

  /** Places `x` into an already sorted sequence. */
  function Insert<T(!new)>(x: T, s: seq<T>, before: (T, T) -> bool): (r: seq<T>)
    requires TotalPreorder(before) && Sorted(s, before)
    ensures |r| == |s| + 1
    ensures multiset(r) == multiset(s) + multiset{x}
    ensures Sorted(r, before)
  {
    if |s| == 0 then [x]
    else if before(x, s[0]) then
      InsertFront(x, s, before);
      [x] + s
    else
      var t := Insert(x, s[1..], before);
      InsertBehind(x, s, t, before);
      assert s == [s[0]] + s[1..];
      assert multiset([s[0]] + t) == multiset{s[0]} + multiset(t);
      [s[0]] + t
  }

  lemma InsertFront<T(!new)>(x: T, s: seq<T>, before: (T, T) -> bool)
    requires TotalPreorder(before) && Sorted(s, before)
    requires |s| > 0 && before(x, s[0])
    ensures Sorted([x] + s, before)
  {
    forall j | 1 <= j < |s| + 1
      ensures before(x, ([x] + s)[j])
    {
      assert before(s[0], s[j - 1]) || j == 1;
    }
  }

  lemma InsertBehind<T(!new)>(x: T, s: seq<T>, t: seq<T>, before: (T, T) -> bool)
    requires TotalPreorder(before) && Sorted(s, before)
    requires |s| > 0 && !before(x, s[0])
    requires Sorted(t, before) && multiset(t) == multiset(s[1..]) + multiset{x}
    ensures Sorted([s[0]] + t, before)
  {
    forall k | 0 <= k < |t|
      ensures before(s[0], t[k])
    {
      assert t[k] in multiset(t);
      if t[k] != x {
        assert t[k] in s[1..];
        var m :| 1 <= m < |s| && s[m] == t[k];
      }
    }
  }

  /** `ORDER BY ... DESC` with `before` as the order: a sorted permutation. */
  function Sort<T(!new)>(s: seq<T>, before: (T, T) -> bool): (r: seq<T>)
    requires TotalPreorder(before)
    ensures |r| == |s|
    ensures multiset(r) == multiset(s)
    ensures Sorted(r, before)
  {
    if |s| == 0 then []
    else
      assert s == [s[0]] + s[1..];
      Insert(s[0], Sort(s[1..], before), before)
  }

  /** `select ... where keep order by before`: exactly the matching rows,
      each as often as in the table, in order. */
  function Query<T(!new)>(rows: seq<T>, keep: T -> bool, before: (T, T) -> bool): (r: seq<T>)
    requires TotalPreorder(before)
    ensures Sorted(r, before)
    ensures forall x :: x in r <==> x in rows && keep(x)
    ensures multiset(r) == multiset(Where(rows, keep))
  {
    var picked := Where(rows, keep);
    var r := Sort(picked, before);
    assert forall x :: x in r <==> x in multiset(r);
    r
  }
}
