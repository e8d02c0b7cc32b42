/** A client following `next_cursor` to the end, with page limits and signing keys that may
    change between requests. */
module PageWalk {
  import opened Cursor
  import opened Ordering
  import opened Outcomes
  import opened Pagination
  import opened Walks

  /** A listing as one handler serves it; `name` is the resource its cursors are bound to. */
  datatype Site = Site(
    res: Resource, name: string, table: seq<Row>, filter: Row -> bool, filterHash: string, codec: Codec, maxLimit: nat)
  {
    ghost predicate Valid() {
      && codec.Faithful() && DistinctKeys(table) && maxLimit > 0
      && forall row :: row in table ==> |row.key| == Columns(res)
    }

    function All(): seq<Row> { Listing(res, table, filter) }
  }

  /** What one request brings: its limit, the server's clock and key ring when it is served. */
  datatype Env = Env(limit: nat, now: int, ring: Keyring)

  datatype PageError = BadLimit | BadCursor(error: CursorError) | BadPosition

  type Page = Reply<Row, Bytes>

  function CursorFor(site: Site, env: Env, row: Row): Bytes {
    EncodeCursor(site.codec, env.ring,
                 Position(site.name, PositionOf(site.res, row.key), site.filterHash), env.now)
  }

  /** The key to continue after. */
  function StartKey(site: Site, env: Env, cursor: Option<Bytes>): Result<Option<seq<string>>, PageError> {
    match cursor
    case None => Ok(None)
    case Some(c) =>
      match DecodeCursor(site.codec, env.ring, c, site.name, site.filterHash, env.now)
      case Err(e) => Err(BadCursor(e))
      case Ok(after) =>
        match ParsePosition(site.res, after)
        case None => Err(BadPosition)
        case Some(key) => Ok(Some(key))
  }

  /** Cuts off the extra row and hands out a cursor iff it was there. */
  function CutPage(site: Site, env: Env, fetched: seq<Row>): Page
    requires env.limit > 0
  {
    if |fetched| > env.limit then Reply(fetched[..env.limit], Some(CursorFor(site, env, fetched[env.limit - 1])))
    else Reply(fetched, None)
  }

  /** The page handlers: fetch one row more than asked. */
  function ServePage(site: Site, env: Env, cursor: Option<Bytes>): Result<Page, PageError> {
    if env.limit == 0 || env.limit > site.maxLimit then Err(BadLimit)
    else
      match StartKey(site, env, cursor)
      case Err(e) => Err(e)
      case Ok(after) =>
        Ok(CutPage(site, env, PageQuery(site.res, site.table, site.filter, after, env.limit + 1)))
  }

  /** A page is refused for its limit exactly if that is not between one and the maximum; otherwise
      exactly if its cursor is refused, and for the cursor's reason. */
  lemma RefusedIff(site: Site, env: Env, cursor: Option<Bytes>)
    ensures var r := ServePage(site, env, cursor);
            var start := StartKey(site, env, cursor);
            if 1 <= env.limit <= site.maxLimit then (r.Err? <==> start.Err?) && (r.Err? ==> r.error == start.error)
            else r == Err(BadLimit)
    ensures cursor.None? && 1 <= env.limit <= site.maxLimit ==> ServePage(site, env, cursor).Ok?
  {}

  /** The listing as the client's requests meet it. */
  function ServerOf(site: Site, env: nat -> Env): Server<Row, Bytes, PageError> {
    Server((i: nat, c: Option<Bytes>) => ServePage(site, env(i), c), (i: nat, row: Row) => CursorFor(site, env(i), row),
           (i: nat, row: Row) => Carried(site, env(i), row), (i: nat) => env(i).limit)
  }

  /** Limits are valid, and each request still finds the key that signed the previous page's
      cursor and comes before that cursor expires. */
  ghost predicate Usable(site: Site, env: nat -> Env) {
    forall i: nat :: UsableAt(site, env, i)
  }

  predicate UsableAt(site: Site, env: nat -> Env, i: nat) {
    1 <= env(i).limit <= site.maxLimit && Honoured(env(i), env(i + 1))
  }

  predicate Honoured(issued: Env, used: Env) {
    used.ring.Find(issued.ring.current.id) == Some(issued.ring.current) && used.now < CursorExpiry(issued.now)
  }

  /** The row's position survives the trip through a cursor. */
  predicate Carried(site: Site, env: Env, row: Row) {
    && |CursorFor(site, env, row)| <= MAX_CURSOR_BYTES
    && 0 < |PositionOf(site.res, row.key)| <= MAX_AFTER_BYTES
    && (site.res.Nodes? || PlainParts(row.key))
  }

  /** A cursor leads back to its row, or is refused: never to another row. */
  lemma CursorLeadsBack(site: Site, issued: Env, used: Env, row: Row)
    requires site.codec.Faithful() && |row.key| == Columns(site.res) && Honoured(issued, used)
    ensures var start := StartKey(site, used, Some(CursorFor(site, issued, row)));
            if Carried(site, issued, row) then start == Ok(Some(row.key)) else start.Err?
  {
    var pos := Position(site.name, PositionOf(site.res, row.key), site.filterHash);
    RoundTrip(site.codec, issued.ring, used.ring, pos, issued.now, pos.resource, pos.filterHash, used.now);
    PositionRoundTrip(site.res, row.key);
  }

  lemma ListingRows(site: Site, i: nat)
    requires site.Valid() && i < |site.All()|
    ensures |site.All()[i].key| == Columns(site.res)
  {
    SelectDistinct(site.table, site.filter);
    OrderByCorrect(site.res, Select(site.table, site.filter));
    var row := site.All()[i];
    assert row in multiset(site.All());
    SelectMembers(site.table, site.filter, row);
  }

  /** The page that starts at the `m`-th of all rows. */
  function Slice(site: Site, env: Env, all: seq<Row>, m: nat): Page
    requires m <= |all| && env.limit > 0
  {
    PageAt(ServerOf(site, (i: nat) => env), 0, all, m)
  }

  lemma CutSlice(site: Site, env: Env, all: seq<Row>, m: nat)
    requires m <= |all| && env.limit > 0
    ensures CutPage(site, env, Take(all[m..], env.limit + 1)) == Slice(site, env, all, m)
  {
    var fetched, stop := Take(all[m..], env.limit + 1), m + env.limit;
    if stop < |all| {
      assert fetched[..env.limit] == all[m..stop] && fetched[env.limit - 1] == all[stop - 1];
    } else {
      assert fetched == all[m..];
    }
  }

  lemma ServeFetched(site: Site, env: Env, cursor: Option<Bytes>, after: Option<seq<string>>, fetched: seq<Row>)
    requires 1 <= env.limit <= site.maxLimit && StartKey(site, env, cursor) == Ok(after)
    requires fetched == PageQuery(site.res, site.table, site.filter, after, env.limit + 1)
    ensures ServePage(site, env, cursor) == Ok(CutPage(site, env, fetched))
  {}

  /** Serving the page that starts at the `m`-th row. */
  lemma ServeSlice(site: Site, env: Env, cursor: Option<Bytes>, all: seq<Row>, m: nat)
    requires site.Valid() && all == site.All() && m <= |all| && 1 <= env.limit <= site.maxLimit
    requires StartKey(site, env, cursor) == Ok(if m == 0 then None else Some(all[m - 1].key))
    ensures ServePage(site, env, cursor) == Ok(Slice(site, env, all, m))
  {
    PageIsSlice(site.res, site.table, site.filter, m, env.limit + 1);
    ServeFetched(site, env, cursor, if m == 0 then None else Some(all[m - 1].key), Take(all[m..], env.limit + 1));
    CutSlice(site, env, all, m);
  }

  /** A request with the cursor of the `m`-th row: the next page, or a refusal. */
  lemma Resume(site: Site, issued: Env, used: Env, all: seq<Row>, m: nat)
    requires site.Valid() && all == site.All() && 0 < m < |all|
    requires 1 <= used.limit <= site.maxLimit && Honoured(issued, used)
    ensures var r := ServePage(site, used, Some(CursorFor(site, issued, all[m - 1])));
            if Carried(site, issued, all[m - 1]) then r == Ok(Slice(site, used, all, m)) else r.Err?
  {
    var row, cursor := all[m - 1], CursorFor(site, issued, all[m - 1]);
    ListingRows(site, m - 1);
    CursorLeadsBack(site, issued, used, row);
    if Carried(site, issued, row) { ServeSlice(site, used, Some(cursor), all, m); }
  }

  lemma SliceIsPage(site: Site, env: nat -> Env, i: nat, all: seq<Row>, m: nat)
    requires m <= |all| && env(i).limit > 0
    ensures PageAt(ServerOf(site, env), i, all, m) == Slice(site, env(i), all, m)
  {}

  lemma SiteContinues(site: Site, env: nat -> Env, all: seq<Row>, i: nat, m: nat)
    requires site.Valid() && UsableAt(site, env, i) && UsableAt(site, env, i + 1) && all == site.All()
    ensures Continues(ServerOf(site, env), all, i, m)
  {
    if 0 < m < |all| {
      Resume(site, env(i), env(i + 1), all, m);
      SliceIsPage(site, env, i + 1, all, m);
    }
  }

  /** Each handler pages through the filtered, sorted table. */
  lemma SitePages(site: Site, env: nat -> Env)
    requires site.Valid() && Usable(site, env)
    ensures Pages(ServerOf(site, env), site.All())
  {
    var s, all := ServerOf(site, env), site.All();
    assert UsableAt(site, env, 0);
    ServeSlice(site, env(0), None, all, 0);
    SliceIsPage(site, env, 0, all, 0);
    forall i: nat ensures s.limit(i) > 0 { assert UsableAt(site, env, i); }
    forall i: nat, m: nat ensures Continues(s, all, i, m) {
      assert UsableAt(site, env, i) && UsableAt(site, env, i + 1);
      SiteContinues(site, env, all, i, m);
    }
  }

  /** The pages put together are the filtered, sorted table: nothing skipped, nothing repeated,
      whatever the limits and however the signing keys rotate. */
  lemma WalkCollectsListing(site: Site, env: nat -> Env, k: nat)
    requires site.Valid() && Usable(site, env) && AllCarried(ServerOf(site, env), site.All())
    requires k >= 1 && k >= |site.All()|
    ensures WalkAfter(ServerOf(site, env), k) == Finished(site.All())
  {
    SitePages(site, env);
    WalkCollectsAll(ServerOf(site, env), site.All(), k);
  }

  /** The listing itself: the selected rows, each once, in key order. */
  lemma ListingIsSortedSelection(site: Site)
    requires site.Valid()
    ensures InOrder(site.res, site.All())
    ensures forall i, j :: 0 <= i < j < |site.All()| ==>
              var a, b := site.All()[i].key, site.All()[j].key;
              if site.res == Nodes then KeyLess(a, b) else KeyLess(b, a)
    ensures forall row :: row in site.All() <==> row in site.table && site.filter(row)
  {
    SelectDistinct(site.table, site.filter);
    OrderByCorrect(site.res, Select(site.table, site.filter));
    forall row ensures row in site.All() <==> row in site.table && site.filter(row) {
      SelectMembers(site.table, site.filter, row);
      assert row in site.All() <==> row in multiset(site.All());
      assert row in Select(site.table, site.filter) <==> row in multiset(Select(site.table, site.filter));
    }
  }

  /** With one row per page the walk is complete iff the position of every row but the last
      survives its cursor. */
  lemma OneByOneCollects(site: Site, env: nat -> Env)
    requires site.Valid() && Usable(site, env) && |site.All()| > 0 && forall i: nat :: env(i).limit == 1
    ensures WalkAfter(ServerOf(site, env), |site.All()|) == Finished(site.All()) <==>
            forall j: nat :: j + 1 < |site.All()| ==> Carried(site, env(j), site.All()[j])
  {
    SitePages(site, env);
    OneByOneExact(ServerOf(site, env), site.All());
    assert forall j: nat :: j + 1 < |site.All()| ==>
             ServerOf(site, env).carries(j, site.All()[j]) == Carried(site, env(j), site.All()[j]);
  }
}
