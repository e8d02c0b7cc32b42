/** A client that follows `next_cursor` against any server that cuts a fixed list of rows into
    pages. A cursor may fail to carry a row's position; then the server refuses it. */
module Walks {
  import opened Outcomes

  datatype Reply<R, C> = Reply(rows: seq<R>, next: Option<C>)

  /** The request of number `i` under its own conditions, the cursor handed out by request `i` for
      a row, whether that cursor carries the position, and the page size of request `i`. */
  datatype Server<!R, !C, !E> = Server(
    serve: (nat, Option<C>) -> Result<Reply<R, C>, E>, cursorFor: (nat, R) -> C, carries: (nat, R) -> bool,
    limit: nat -> nat)

  datatype Walk<R, C, E> = Asking(rows: seq<R>, cursor: Option<C>) | Finished(rows: seq<R>) | Failed(error: E)

  /** One request of the client. */
  function Ask<R, C, E>(s: Server<R, C, E>, i: nat, walk: Walk<R, C, E>): Walk<R, C, E> {
    if !walk.Asking? then walk
    else
      match s.serve(i, walk.cursor)
      case Err(e) => Failed(e)
      case Ok(reply) =>
        if reply.next.None? then Finished(walk.rows + reply.rows) else Asking(walk.rows + reply.rows, reply.next)
  }

  /** The client's collection after `k` requests. */
  function WalkAfter<R, C, E>(s: Server<R, C, E>, k: nat): Walk<R, C, E> {
    if k == 0 then Asking([], None) else Ask(s, k - 1, WalkAfter(s, k - 1))
  }

  /** The page of request `i` that starts at the `m`-th of all rows. */
  function PageAt<R, C, E>(s: Server<R, C, E>, i: nat, all: seq<R>, m: nat): Reply<R, C>
    requires m <= |all| && s.limit(i) > 0
  {
    var stop := m + s.limit(i);
    if stop < |all| then Reply(all[m..stop], Some(s.cursorFor(i, all[stop - 1]))) else Reply(all[m..], None)
  }

  /** Request `i + 1` continues after the `m`-th row, with the cursor of request `i`. */
  predicate Continues<R(==), C(==), E(==)>(s: Server<R, C, E>, all: seq<R>, i: nat, m: nat) {
    0 < m < |all| ==>
      var r := s.serve(i + 1, Some(s.cursorFor(i, all[m - 1])));
      if s.carries(i, all[m - 1]) then s.limit(i + 1) > 0 && r == Ok(PageAt(s, i + 1, all, m)) else r.Err?
  }

  /** The server pages through `all`. */
  ghost predicate Pages<R, C, E>(s: Server<R, C, E>, all: seq<R>) {
    && (forall i: nat :: s.limit(i) > 0)
    && s.serve(0, None) == Ok(PageAt(s, 0, all, 0))
    && (forall i: nat, m: nat :: Continues(s, all, i, m))
  }

  /** After request `i` the client holds the first `m` rows and a cursor for the last of them, or
      has finished. */
  ghost predicate Tracked<R, C, E>(s: Server<R, C, E>, all: seq<R>, i: nat, m: nat, walk: Walk<R, C, E>) {
    if m < |all| then m > 0 && walk == Asking(all[..m], Some(s.cursorFor(i, all[m - 1]))) else walk == Finished(all)
  }

  lemma AppendPage<R, C, E>(s: Server<R, C, E>, all: seq<R>, i: nat, m: nat, walk: Walk<R, C, E>)
    requires walk.Asking? && m <= |all| && walk.rows == all[..m] && s.limit(i) > 0
    requires s.serve(i, walk.cursor) == Ok(PageAt(s, i, all, m))
    ensures Tracked(s, all, i, m + s.limit(i), Ask(s, i, walk))
  {
    var stop := m + s.limit(i);
    assert all[..m] + all[m..] == all;
    if stop < |all| { assert all[..m] + all[m..stop] == all[..stop]; }
  }

  lemma FirstPage<R, C, E>(s: Server<R, C, E>, all: seq<R>)
    requires Pages(s, all)
    ensures Tracked(s, all, 0, s.limit(0), WalkAfter(s, 1))
  {
    assert WalkAfter(s, 0) == Asking([], None);
    AppendPage(s, all, 0, 0, WalkAfter(s, 0));
  }

  /** One request moves the client on by a page, or to an error if its cursor does not carry. */
  lemma NextPage<R, C, E>(s: Server<R, C, E>, all: seq<R>, i: nat, m: nat)
    requires Pages(s, all) && 0 < m < |all| && Tracked(s, all, i, m, WalkAfter(s, i + 1))
    ensures if s.carries(i, all[m - 1]) then Tracked(s, all, i + 1, m + s.limit(i + 1), WalkAfter(s, i + 2))
            else WalkAfter(s, i + 2).Failed?
  {
    assert Continues(s, all, i, m);
    if s.carries(i, all[m - 1]) { AppendPage(s, all, i + 1, m, WalkAfter(s, i + 1)); }
  }

  ghost predicate AllCarried<R, C, E>(s: Server<R, C, E>, all: seq<R>) {
    forall i: nat, j: nat {:trigger s.carries(i, all[j])} :: j + 1 < |all| ==> s.carries(i, all[j])
  }

  lemma {:induction false} Progress<R, C, E>(s: Server<R, C, E>, all: seq<R>, k: nat) returns (m: nat)
    requires Pages(s, all) && AllCarried(s, all) && k > 0
    ensures (k <= m || |all| <= m) && Tracked(s, all, k - 1, m, WalkAfter(s, k))
  {
    if k == 1 {
      m := s.limit(0);
      FirstPage(s, all);
    } else {
      m := Progress(s, all, k - 1);
      if m < |all| {
        assert s.carries(k - 2, all[m - 1]);
        NextPage(s, all, k - 2, m);
        m := m + s.limit(k - 1);
      }
    }
  }

  /** Following cursors ends after at most as many requests as there are rows, with all rows in
      order, none skipped and none repeated. */
  lemma WalkCollectsAll<R, C, E>(s: Server<R, C, E>, all: seq<R>, k: nat)
    requires Pages(s, all) && AllCarried(s, all) && k >= 1 && k >= |all|
    ensures WalkAfter(s, k) == Finished(all)
  {
    var _ := Progress(s, all, k);
  }

  // ---------- One row per page ----------

  lemma {:induction false} OneByOne<R, C, E>(s: Server<R, C, E>, all: seq<R>, k: nat)
    requires Pages(s, all) && (forall i: nat :: s.limit(i) == 1) && 0 < k <= |all|
    requires forall j: nat :: j + 1 < k ==> s.carries(j, all[j])
    ensures Tracked(s, all, k - 1, k, WalkAfter(s, k))
  {
    if k == 1 {
      FirstPage(s, all);
    } else {
      OneByOne(s, all, k - 1);
      assert s.carries(k - 2, all[k - 2]);
      NextPage(s, all, k - 2, k - 1);
    }
  }

  lemma {:induction false} FailureStays<R, C, E>(s: Server<R, C, E>, k: nat, k': nat)
    requires k <= k' && WalkAfter(s, k).Failed?
    ensures WalkAfter(s, k').Failed?
    decreases k' - k
  {
    if k < k' { FailureStays(s, k, k' - 1); }
  }

  /** With one row per page the walk is complete iff every position but the last is carried; the
      first that is not stops it. */
  lemma OneByOneExact<R, C, E>(s: Server<R, C, E>, all: seq<R>)
    requires Pages(s, all) && (forall i: nat :: s.limit(i) == 1) && |all| > 0
    ensures WalkAfter(s, |all|) == Finished(all) <==> forall j: nat :: j + 1 < |all| ==> s.carries(j, all[j])
  {
    var j := 0;
    while j + 1 < |all| && s.carries(j, all[j])
      invariant j < |all| && forall i: nat :: i < j ==> s.carries(i, all[i])
    {
      j := j + 1;
    }
    OneByOne(s, all, j + 1);
    if j + 1 < |all| {
      NextPage(s, all, j, j + 1);
      FailureStays(s, j + 2, |all|);
    }
  }
}
