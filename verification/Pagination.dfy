/** Keyset pagination of the three v1 listings: following `next_cursor` page by page returns
    the filtered, sorted table. */
module Pagination {
  import opened Cursor
  import opened Ordering
  import opened Outcomes
  import opened Sorting

  datatype Resource = Nodes | HealthHistory | Alerts

  /** A table row: its sort columns, and the rest. */
  datatype Row = Row(key: seq<string>, data: string)

  /** node_id; computed_at, node_id, evaluation_id; last_seen_at, alert_id. */
  function Columns(res: Resource): nat {
    match res
    case Nodes => 1
    case HealthHistory => 3
    case Alerts => 2
  }

  /** Nodes are listed ascending, the two histories descending. */
  predicate Precedes(res: Resource, a: seq<string>, b: seq<string>) {
    if res.Nodes? then KeyLess(a, b) else KeyLess(b, a)
  }

  lemma PrecedesOrder(res: Resource, a: seq<string>, b: seq<string>, c: seq<string>)
    ensures !Precedes(res, a, a)
    ensures Precedes(res, a, b) && Precedes(res, b, c) ==> Precedes(res, a, c)
    ensures Precedes(res, a, b) || a == b || Precedes(res, b, a)
    ensures !(Precedes(res, a, b) && Precedes(res, b, a))
  {
    KeyIrreflexive(a);
    KeyConnected(a, b);
    if KeyLess(a, b) && KeyLess(b, c) { KeyTransitive(a, b, c); }
    if KeyLess(c, b) && KeyLess(b, a) { KeyTransitive(c, b, a); }
    if KeyLess(a, b) && KeyLess(b, a) { KeyTransitive(a, b, a); }
  }

  // ---------- Cursor positions ----------

  const SEPARATOR: char := '|'

  function Join(parts: seq<string>): string
    requires parts != []
  {
    if |parts| == 1 then parts[0] else parts[0] + [SEPARATOR] + Join(parts[1..])
  }

  function Split(s: string): (parts: seq<string>)
    ensures parts != []
  {
    if s == [] then [[]]
    else
      var rest := Split(s[1..]);
      if s[0] == SEPARATOR then [[]] + rest else [[s[0]] + rest[0]] + rest[1..]
  }

  function SplitAfter(s: string, count: nat): Option<seq<string>> {
    var parts := Split(s);
    if |parts| != count || exists i :: 0 <= i < |parts| && parts[i] == "" then None else Some(parts)
  }

  function PositionOf(res: Resource, key: seq<string>): string {
    if key == [] then "" else if res.Nodes? then key[0] else Join(key)
  }

  function ParsePosition(res: Resource, s: string): Option<seq<string>> {
    if res.Nodes? then Some([s]) else SplitAfter(s, Columns(res))
  }

  /** A position that is read has the columns of its table: the node; time, node and evaluation; time and alert. */
  lemma ParsedColumns(res: Resource, s: string)
    requires ParsePosition(res, s).Some?
    ensures |ParsePosition(res, s).value| == (if res == Nodes then 1 else if res == HealthHistory then 3 else 2)
  {}

  predicate PlainParts(key: seq<string>) {
    forall i :: 0 <= i < |key| ==> key[i] != "" && SEPARATOR !in key[i]
  }

  lemma {:induction false} SplitPlain(part: string)
    requires SEPARATOR !in part
    ensures Split(part) == [part]
  {
    if part != [] {
      SplitPlain(part[1..]);
      assert part == [part[0]] + part[1..];
    }
  }

  lemma {:induction false} SplitPrefix(part: string, rest: string)
    requires SEPARATOR !in part
    ensures Split(part + [SEPARATOR] + rest) == [part] + Split(rest)
  {
    var whole := part + [SEPARATOR] + rest;
    if part == [] {
      assert whole[1..] == rest;
    } else {
      SplitPrefix(part[1..], rest);
      assert whole[1..] == part[1..] + [SEPARATOR] + rest;
      assert part == [part[0]] + part[1..];
    }
  }

  lemma {:induction false} SplitConcatCount(a: string, b: string)
    ensures |Split(a + [SEPARATOR] + b)| == |Split(a)| + |Split(b)|
  {
    var whole := a + [SEPARATOR] + b;
    if a == [] {
      assert whole[1..] == b;
    } else {
      SplitConcatCount(a[1..], b);
      assert whole[1..] == a[1..] + [SEPARATOR] + b;
    }
  }

  lemma {:induction false} SplitCount(s: string)
    ensures |Split(s)| == 1 <==> SEPARATOR !in s
  {
    if s != [] {
      SplitCount(s[1..]);
      assert s == [s[0]] + s[1..];
    }
  }

  lemma {:induction false} SplitJoin(parts: seq<string>)
    requires parts != [] && forall i :: 0 <= i < |parts| ==> SEPARATOR !in parts[i]
    ensures Split(Join(parts)) == parts
  {
    if |parts| == 1 {
      SplitPlain(parts[0]);
    } else {
      SplitJoin(parts[1..]);
      SplitPrefix(parts[0], Join(parts[1..]));
    }
  }

  lemma {:induction false} JoinCount(parts: seq<string>)
    requires parts != []
    ensures |Split(Join(parts))| >= |parts|
    ensures (exists i :: 0 <= i < |parts| && SEPARATOR in parts[i]) ==> |Split(Join(parts))| > |parts|
  {
    SplitCount(parts[0]);
    if |parts| > 1 {
      JoinCount(parts[1..]);
      SplitConcatCount(parts[0], Join(parts[1..]));
      assert forall i :: 1 <= i < |parts| ==> parts[i] == parts[1..][i - 1];
    }
  }

  /** A composite position is understood again iff every column is non-empty and has no
      separator; otherwise it is rejected, never misread. */
  lemma PositionRoundTrip(res: Resource, key: seq<string>)
    requires |key| == Columns(res)
    ensures ParsePosition(res, PositionOf(res, key)) ==
            if res.Nodes? || PlainParts(key) then Some(key) else None
  {
    if res.Nodes? {
      assert key == [key[0]];
    } else {
      JoinCount(key);
      if forall i :: 0 <= i < |key| ==> SEPARATOR !in key[i] { SplitJoin(key); }
    }
  }

  // ---------- The page query ----------

  function Select(rows: seq<Row>, keep: Row -> bool): seq<Row> {
    if rows == [] then []
    else if keep(rows[0]) then [rows[0]] + Select(rows[1..], keep)
    else Select(rows[1..], keep)
  }

  function KeyOrder(res: Resource): (Row, Row) -> bool {
    (a: Row, b: Row) => a.key == b.key || Precedes(res, a.key, b.key)
  }

  /** ORDER BY the key columns. */
  function OrderBy(res: Resource, rows: seq<Row>): seq<Row> {
    Sort(rows, KeyOrder(res))
  }

  function Take(rows: seq<Row>, n: nat): seq<Row> {
    if |rows| <= n then rows else rows[..n]
  }

  function IsAfter(res: Resource, after: Option<seq<string>>): Row -> bool {
    (row: Row) => after.None? || Precedes(res, after.value, row.key)
  }

  function Both(f: Row -> bool, g: Row -> bool): Row -> bool {
    (row: Row) => f(row) && g(row)
  }

  /** WHERE filters AND after-position ORDER BY key LIMIT n. */
  function PageQuery(res: Resource, table: seq<Row>, filter: Row -> bool, after: Option<seq<string>>, limit: nat):
    seq<Row>
  {
    Take(OrderBy(res, Select(table, Both(filter, IsAfter(res, after)))), limit)
  }

  /** The whole listing a client wants. */
  function Listing(res: Resource, table: seq<Row>, filter: Row -> bool): seq<Row> {
    OrderBy(res, Select(table, filter))
  }

  ghost predicate DistinctKeys(rows: seq<Row>) {
    forall i, j :: 0 <= i < j < |rows| ==> rows[i].key != rows[j].key
  }

  ghost predicate InOrder(res: Resource, rows: seq<Row>) {
    forall i, j :: 0 <= i < j < |rows| ==> Precedes(res, rows[i].key, rows[j].key)
  }

  lemma KeyOrderIsTotal(res: Resource)
    ensures TotalPreorder(KeyOrder(res))
  {
    var leq := KeyOrder(res);
    forall a, b ensures leq(a, b) || leq(b, a) { PrecedesOrder(res, a.key, b.key, b.key); }
    forall a, b, c | leq(a, b) && leq(b, c) ensures leq(a, c) { PrecedesOrder(res, a.key, b.key, c.key); }
  }

  lemma {:induction false} InsertDistinct(res: Resource, row: Row, rows: seq<Row>)
    requires DistinctKeys(rows) && forall r :: r in rows ==> r.key != row.key
    ensures DistinctKeys(Insert(row, rows, KeyOrder(res)))
  {
    if rows != [] && !KeyOrder(res)(row, rows[0]) {
      var rest := Insert(row, rows[1..], KeyOrder(res));
      InsertDistinct(res, row, rows[1..]);
      forall j | 0 <= j < |rest| ensures rest[j].key != rows[0].key {
        InsertMember(row, rows[1..], KeyOrder(res), rest[j]);
      }
    }
  }

  lemma {:induction false} OrderByDistinct(res: Resource, rows: seq<Row>)
    requires DistinctKeys(rows)
    ensures DistinctKeys(OrderBy(res, rows))
  {
    if rows != [] {
      OrderByDistinct(res, rows[1..]);
      KeyOrderIsTotal(res);
      SortCorrect(rows[1..], KeyOrder(res));
      forall r | r in OrderBy(res, rows[1..]) ensures r.key != rows[0].key { assert r in multiset(rows[1..]); }
      InsertDistinct(res, rows[0], OrderBy(res, rows[1..]));
    }
  }

  /** Ordering keeps every row and puts the keys in order. */
  lemma OrderByCorrect(res: Resource, rows: seq<Row>)
    requires DistinctKeys(rows)
    ensures multiset(OrderBy(res, rows)) == multiset(rows) && InOrder(res, OrderBy(res, rows))
  {
    KeyOrderIsTotal(res);
    SortCorrect(rows, KeyOrder(res));
    OrderByDistinct(res, rows);
  }

  // ---------- A page is a slice of the listing ----------

  lemma {:induction false} SelectMembers(rows: seq<Row>, keep: Row -> bool, row: Row)
    ensures row in Select(rows, keep) <==> row in rows && keep(row)
  {
    if rows != [] {
      SelectMembers(rows[1..], keep, row);
      assert rows == [rows[0]] + rows[1..];
    }
  }

  lemma {:induction false} SelectDistinct(rows: seq<Row>, keep: Row -> bool)
    requires DistinctKeys(rows)
    ensures DistinctKeys(Select(rows, keep))
  {
    if rows != [] {
      SelectDistinct(rows[1..], keep);
      forall r | r in Select(rows[1..], keep) ensures r.key != rows[0].key { SelectMembers(rows[1..], keep, r); }
    }
  }

  lemma {:induction false} SelectTwice(rows: seq<Row>, f: Row -> bool, g: Row -> bool)
    ensures Select(rows, Both(f, g)) == Select(Select(rows, f), g)
  {
    if rows != [] {
      SelectTwice(rows[1..], f, g);
      var rest := Select(rows[1..], f);
      assert f(rows[0]) ==> ([rows[0]] + rest)[1..] == rest;
    }
  }

  lemma {:induction false} SelectInsert(res: Resource, row: Row, rows: seq<Row>, keep: Row -> bool)
    requires Sorted(rows, KeyOrder(res))
    ensures Select(Insert(row, rows, KeyOrder(res)), keep) ==
            if keep(row) then Insert(row, Select(rows, keep), KeyOrder(res)) else Select(rows, keep)
  {
    var leq := KeyOrder(res);
    if rows == [] || leq(row, rows[0]) {
      assert ([row] + rows)[1..] == rows;
      if Select(rows, keep) != [] {
        SelectMembers(rows, keep, Select(rows, keep)[0]);
        PrecedesOrder(res, row.key, rows[0].key, Select(rows, keep)[0].key);
      }
    } else {
      SelectInsert(res, row, rows[1..], keep);
      var inserted := Insert(row, rows[1..], leq);
      assert ([rows[0]] + inserted)[1..] == inserted;
      var rest := Select(rows[1..], keep);
      assert ([rows[0]] + rest)[1..] == rest;
    }
  }

  /** Filtering before ordering is filtering after ordering. */
  lemma {:induction false} OrderBySelect(res: Resource, rows: seq<Row>, keep: Row -> bool)
    ensures OrderBy(res, Select(rows, keep)) == Select(OrderBy(res, rows), keep)
  {
    if rows != [] {
      OrderBySelect(res, rows[1..], keep);
      KeyOrderIsTotal(res);
      SortCorrect(rows[1..], KeyOrder(res));
      SelectInsert(res, rows[0], OrderBy(res, rows[1..]), keep);
      var rest := Select(rows[1..], keep);
      assert ([rows[0]] + rest)[1..] == rest;
    }
  }

  lemma {:induction false} SelectSuffix(rows: seq<Row>, keep: Row -> bool, m: nat)
    requires m <= |rows|
    requires forall i :: 0 <= i < |rows| ==> (keep(rows[i]) <==> m <= i)
    ensures Select(rows, keep) == rows[m..]
  {
    if rows != [] {
      SelectSuffix(rows[1..], keep, if m == 0 then 0 else m - 1);
      assert rows == [rows[0]] + rows[1..];
    }
  }

  /** The page after the `m`-th row of the listing is the listing's next `limit` rows. */
  lemma PageIsSlice(res: Resource, table: seq<Row>, filter: Row -> bool, m: nat, limit: nat)
    requires DistinctKeys(table) && m <= |Listing(res, table, filter)|
    ensures var all := Listing(res, table, filter);
            PageQuery(res, table, filter, if m == 0 then None else Some(all[m - 1].key), limit) == Take(all[m..], limit)
  {
    var all := Listing(res, table, filter);
    var keep := IsAfter(res, if m == 0 then None else Some(all[m - 1].key));
    SelectTwice(table, filter, keep);
    SelectDistinct(table, filter);
    OrderBySelect(res, Select(table, filter), keep);
    OrderByCorrect(res, Select(table, filter));
    forall i | 0 <= i < |all| ensures keep(all[i]) <==> m <= i {
      if m > 0 { PrecedesOrder(res, all[m - 1].key, all[i].key, all[i].key); }
    }
    SelectSuffix(all, keep, m);
  }
}
