/** Redaction of stored JSON before it leaves the controller: the bounded summaries of the
    read-only API and the detail values of the audit export. Strings are byte strings. */
module Redaction {
  import opened Outcomes

  /** Objects list their entries in iteration order. */
  datatype Json =
    | Null | Bool(b: bool) | Number(n: int) | Str(s: string)
    | Array(items: seq<Json>) | Object(fields: seq<Field>)

  datatype Field = Field(key: string, value: Json)

  const REDACTED: Json := Str("<redacted>")
  const MAX_STRING_BYTES: nat := 256

  // ---------- Summaries ----------

  const MAX_SUMMARY_DEPTH: nat := 4
  const MAX_SUMMARY_ENTRIES: nat := 32

  /** Which keys survive, and which string values must not: the deny list of plain summaries and
      the allow list of alert summaries both have this form. */
  datatype SummaryRules = SummaryRules(keepKey: string -> bool, forbidden: string -> bool)

  predicate SafeString(rules: SummaryRules, s: string) {
    |s| <= MAX_STRING_BYTES && !rules.forbidden(s)
  }

  function SafeAt(rules: SummaryRules, v: Json, depth: nat): Json
    decreases v
  {
    if depth >= MAX_SUMMARY_DEPTH then Null
    else
      match v
      case Object(fields) =>
        if |fields| > MAX_SUMMARY_ENTRIES then Object([]) else Object(SafeFields(rules, fields, depth + 1))
      case Array(items) =>
        if |items| > MAX_SUMMARY_ENTRIES then Array([]) else Array(SafeItems(rules, items, depth + 1))
      case Str(s) => if SafeString(rules, s) then v else REDACTED
      case _ => v
  }

  function SafeFields(rules: SummaryRules, fields: seq<Field>, depth: nat): seq<Field>
    decreases fields
  {
    if fields == [] then []
    else if rules.keepKey(fields[0].key)
    then [Field(fields[0].key, SafeAt(rules, fields[0].value, depth))] + SafeFields(rules, fields[1..], depth)
    else SafeFields(rules, fields[1..], depth)
  }

  function SafeItems(rules: SummaryRules, items: seq<Json>, depth: nat): seq<Json>
    decreases items
  {
    if items == [] then [] else [SafeAt(rules, items[0], depth)] + SafeItems(rules, items[1..], depth)
  }

  function SafeSummary(rules: SummaryRules, v: Json): Json {
    if v.Object? then SafeAt(rules, v, 0) else Object([])
  }

  /** What a summary may look like at `depth`. */
  predicate Clean(rules: SummaryRules, v: Json, depth: nat)
    decreases v
  {
    if depth >= MAX_SUMMARY_DEPTH then v.Null?
    else
      match v
      case Object(fields) =>
        && |fields| <= MAX_SUMMARY_ENTRIES
        && forall i :: 0 <= i < |fields| ==> rules.keepKey(fields[i].key) && Clean(rules, fields[i].value, depth + 1)
      case Array(items) =>
        |items| <= MAX_SUMMARY_ENTRIES && forall i :: 0 <= i < |items| ==> Clean(rules, items[i], depth + 1)
      case Str(s) => v == REDACTED || (|s| <= 256 && !rules.forbidden(s))
      case _ => true
  }

  lemma {:induction false} SafeIsClean(rules: SummaryRules, v: Json, depth: nat)
    ensures Clean(rules, SafeAt(rules, v, depth), depth)
    decreases v
  {
    if depth < MAX_SUMMARY_DEPTH {
      if v.Object? && |v.fields| <= MAX_SUMMARY_ENTRIES { FieldsAreClean(rules, v.fields, depth + 1); }
      if v.Array? && |v.items| <= MAX_SUMMARY_ENTRIES { ItemsAreClean(rules, v.items, depth + 1); }
    }
  }

  lemma {:induction false} FieldsAreClean(rules: SummaryRules, fields: seq<Field>, depth: nat)
    ensures var r := SafeFields(rules, fields, depth);
            && |r| <= |fields|
            && forall i :: 0 <= i < |r| ==> rules.keepKey(r[i].key) && Clean(rules, r[i].value, depth)
    decreases fields
  {
    if fields != [] {
      FieldsAreClean(rules, fields[1..], depth);
      SafeIsClean(rules, fields[0].value, depth);
    }
  }

  lemma {:induction false} ItemsAreClean(rules: SummaryRules, items: seq<Json>, depth: nat)
    ensures |SafeItems(rules, items, depth)| == |items|
    ensures forall i :: 0 <= i < |items| ==> Clean(rules, SafeItems(rules, items, depth)[i], depth)
    decreases items
  {
    if items != [] {
      ItemsAreClean(rules, items[1..], depth);
      SafeIsClean(rules, items[0], depth);
    }
  }

  lemma {:induction false} CleanIsKept(rules: SummaryRules, v: Json, depth: nat)
    requires Clean(rules, v, depth)
    ensures SafeAt(rules, v, depth) == v
    decreases v
  {
    if depth < MAX_SUMMARY_DEPTH {
      if v.Object? { FieldsAreKept(rules, v.fields, depth + 1); }
      if v.Array? { ItemsAreKept(rules, v.items, depth + 1); }
    }
  }

  lemma {:induction false} FieldsAreKept(rules: SummaryRules, fields: seq<Field>, depth: nat)
    requires forall i :: 0 <= i < |fields| ==> rules.keepKey(fields[i].key) && Clean(rules, fields[i].value, depth)
    ensures SafeFields(rules, fields, depth) == fields
    decreases fields
  {
    if fields != [] {
      CleanIsKept(rules, fields[0].value, depth);
      FieldsAreKept(rules, fields[1..], depth);
    }
  }

  lemma {:induction false} ItemsAreKept(rules: SummaryRules, items: seq<Json>, depth: nat)
    requires forall i :: 0 <= i < |items| ==> Clean(rules, items[i], depth)
    ensures SafeItems(rules, items, depth) == items
    decreases items
  {
    if items != [] {
      CleanIsKept(rules, items[0], depth);
      ItemsAreKept(rules, items[1..], depth);
    }
  }

  /** A summary passes unchanged exactly when it is a clean object, so redacting twice is the same
      as redacting once. */
  lemma SummaryFixedPoints(rules: SummaryRules, v: Json)
    ensures SafeSummary(rules, v) == v <==> v.Object? && Clean(rules, v, 0)
    ensures SafeSummary(rules, SafeSummary(rules, v)) == SafeSummary(rules, v)
  {
    SafeIsClean(rules, v, 0);
    CleanIsKept(rules, SafeSummary(rules, v), 0);
    if v.Object? && Clean(rules, v, 0) { CleanIsKept(rules, v, 0); }
  }

  // ---------- Nothing lost without a reason ----------

  /** The fields whose keys survive, in order. */
  function KeptFields(rules: SummaryRules, fields: seq<Field>): seq<Field> {
    if fields == [] then []
    else
      var last := fields[|fields| - 1];
      KeptFields(rules, fields[..|fields| - 1]) + (if rules.keepKey(last.key) then [last] else [])
  }

  lemma {:induction false} KeptFirst(rules: SummaryRules, fields: seq<Field>)
    requires fields != []
    ensures KeptFields(rules, fields)
         == (if rules.keepKey(fields[0].key) then [fields[0]] else []) + KeptFields(rules, fields[1..])
  {
    if |fields| > 1 {
      var n := |fields| - 1;
      KeptFirst(rules, fields[..n]);
      assert fields[..n][1..] == fields[1..][..n - 1];
    }
  }

  lemma {:induction false} FieldsOneByOne(rules: SummaryRules, fields: seq<Field>, depth: nat)
    ensures var kept := KeptFields(rules, fields);
            && |SafeFields(rules, fields, depth)| == |kept|
            && forall i :: 0 <= i < |kept| ==>
                 SafeFields(rules, fields, depth)[i] == Field(kept[i].key, SafeAt(rules, kept[i].value, depth))
    decreases |fields|
  {
    if fields != [] {
      KeptFirst(rules, fields);
      FieldsOneByOne(rules, fields[1..], depth);
    }
  }

  lemma {:induction false} ItemsOneByOne(rules: SummaryRules, items: seq<Json>, depth: nat)
    ensures |SafeItems(rules, items, depth)| == |items|
    ensures forall i :: 0 <= i < |items| ==> SafeItems(rules, items, depth)[i] == SafeAt(rules, items[i], depth)
    decreases |items|
  {
    if items != [] { ItemsOneByOne(rules, items[1..], depth); }
  }

  /** Each level of a summary keeps all fields with surviving keys and all items, in order and each redacted
      by itself, unless it has more than 32 entries or lies below the fourth level. */
  lemma SummaryLevel(rules: SummaryRules, v: Json, depth: nat)
    ensures var r := SafeAt(rules, v, depth);
            if depth >= 4 then r == Null
            else
              match v
              case Object(fields) =>
                var kept := if |fields| > 32 then [] else KeptFields(rules, fields);
                && r.Object? && |r.fields| == |kept|
                && forall i :: 0 <= i < |kept| ==>
                     r.fields[i] == Field(kept[i].key, SafeAt(rules, kept[i].value, depth + 1))
              case Array(items) =>
                && r.Array? && |r.items| == (if |items| > 32 then 0 else |items|)
                && forall i :: 0 <= i < |r.items| ==> r.items[i] == SafeAt(rules, items[i], depth + 1)
              case Str(s) => r == if |s| <= 256 && !rules.forbidden(s) then v else Str("<redacted>")
              case _ => r == v
  {
    if v.Object? { FieldsOneByOne(rules, v.fields, depth + 1); }
    if v.Array? { ItemsOneByOne(rules, v.items, depth + 1); }
  }

  // ---------- Nothing forbidden, nothing invented ----------

  /** The string occurs as a value. */
  predicate Shows(v: Json, s: string)
    decreases v
  {
    match v
    case Object(fields) => exists i :: 0 <= i < |fields| && Shows(fields[i].value, s)
    case Array(items) => exists i :: 0 <= i < |items| && Shows(items[i], s)
    case Str(t) => t == s
    case _ => false
  }

  /** Every string a summary shows is the marker, or was in the value and passed the checks. */
  lemma {:induction false} ShownWasSafe(rules: SummaryRules, v: Json, depth: nat, s: string)
    requires Shows(SafeAt(rules, v, depth), s)
    ensures Str(s) == REDACTED || (Shows(v, s) && |s| <= 256 && !rules.forbidden(s))
    decreases v
  {
    if v.Object? {
      var i :| 0 <= i < |SafeAt(rules, v, depth).fields| && Shows(SafeAt(rules, v, depth).fields[i].value, s);
      ShownFieldWasSafe(rules, v.fields, depth + 1, i, s);
    } else if v.Array? {
      var i :| 0 <= i < |SafeAt(rules, v, depth).items| && Shows(SafeAt(rules, v, depth).items[i], s);
      ItemAt(rules, v.items, depth + 1, i);
      ShownWasSafe(rules, v.items[i], depth + 1, s);
    }
  }

  lemma {:induction false} ItemAt(rules: SummaryRules, items: seq<Json>, depth: nat, i: nat)
    requires i < |SafeItems(rules, items, depth)|
    ensures i < |items| && SafeItems(rules, items, depth)[i] == SafeAt(rules, items[i], depth)
    decreases items
  {
    if i > 0 { ItemAt(rules, items[1..], depth, i - 1); }
  }

  lemma {:induction false} ShownFieldWasSafe(rules: SummaryRules, fields: seq<Field>, depth: nat, i: nat, s: string)
    requires i < |SafeFields(rules, fields, depth)| && Shows(SafeFields(rules, fields, depth)[i].value, s)
    ensures Str(s) == REDACTED || (SafeString(rules, s) && exists j :: 0 <= j < |fields| && Shows(fields[j].value, s))
    decreases fields
  {
    var rest := fields[1..];
    if !rules.keepKey(fields[0].key) || i > 0 {
      var j := if rules.keepKey(fields[0].key) then i - 1 else i;
      ShownFieldWasSafe(rules, rest, depth, j, s);
      if k :| 0 <= k < |rest| && Shows(rest[k].value, s) { assert Shows(fields[k + 1].value, s); }
    } else {
      ShownWasSafe(rules, fields[0].value, depth, s);
    }
  }

  // ---------- Size ----------

  function Size(v: Json): nat
    decreases v
  {
    match v
    case Object(fields) => 1 + SizeOfFields(fields)
    case Array(items) => 1 + SizeOfItems(items)
    case _ => 1
  }

  function SizeOfFields(fields: seq<Field>): nat
    decreases fields
  {
    if fields == [] then 0 else Size(fields[0].value) + SizeOfFields(fields[1..])
  }

  function SizeOfItems(items: seq<Json>): nat
    decreases items
  {
    if items == [] then 0 else Size(items[0]) + SizeOfItems(items[1..])
  }

  /** Nodes of a tree of the given height in which every node has 32 children. */
  function Bound(height: nat): nat {
    if height == 0 then 1 else 1 + MAX_SUMMARY_ENTRIES * Bound(height - 1)
  }

  lemma {:induction false} CleanIsSmall(rules: SummaryRules, v: Json, depth: nat)
    requires Clean(rules, v, depth) && depth <= MAX_SUMMARY_DEPTH
    ensures Size(v) <= Bound(MAX_SUMMARY_DEPTH - depth)
    decreases v
  {
    if depth < MAX_SUMMARY_DEPTH {
      var each := Bound(MAX_SUMMARY_DEPTH - depth - 1);
      if v.Object? {
        FieldsAreSmall(rules, v.fields, depth + 1);
        Wider(|v.fields|, MAX_SUMMARY_ENTRIES, each);
      } else if v.Array? {
        ItemsAreSmall(rules, v.items, depth + 1);
        Wider(|v.items|, MAX_SUMMARY_ENTRIES, each);
      }
    }
  }

  lemma {:induction false} FieldsAreSmall(rules: SummaryRules, fields: seq<Field>, depth: nat)
    requires depth <= MAX_SUMMARY_DEPTH && forall i :: 0 <= i < |fields| ==> Clean(rules, fields[i].value, depth)
    ensures SizeOfFields(fields) <= |fields| * Bound(MAX_SUMMARY_DEPTH - depth)
    decreases fields
  {
    if fields != [] {
      CleanIsSmall(rules, fields[0].value, depth);
      FieldsAreSmall(rules, fields[1..], depth);
      Distribute(|fields[1..]|, Bound(MAX_SUMMARY_DEPTH - depth));
    }
  }

  lemma {:induction false} ItemsAreSmall(rules: SummaryRules, items: seq<Json>, depth: nat)
    requires depth <= MAX_SUMMARY_DEPTH && forall i :: 0 <= i < |items| ==> Clean(rules, items[i], depth)
    ensures SizeOfItems(items) <= |items| * Bound(MAX_SUMMARY_DEPTH - depth)
    decreases items
  {
    if items != [] {
      CleanIsSmall(rules, items[0], depth);
      ItemsAreSmall(rules, items[1..], depth);
      Distribute(|items[1..]|, Bound(MAX_SUMMARY_DEPTH - depth));
    }
  }

  lemma Wider(n: nat, m: nat, k: nat)
    requires n <= m
    ensures n * k <= m * k
  {}

  lemma Distribute(n: nat, k: nat)
    ensures (n + 1) * k == n * k + k
  {}

  /** However large the stored value, its summary has at most 1 + 32 + ... + 32^4 nodes. */
  lemma SummaryIsBounded(rules: SummaryRules, v: Json)
    ensures Size(SafeSummary(rules, v)) <= Bound(MAX_SUMMARY_DEPTH) == 1_082_401
  {
    SafeIsClean(rules, v, 0);
    CleanIsSmall(rules, SafeSummary(rules, v), 0);
    assert Bound(0) == 1 && Bound(1) == 33 && Bound(2) == 1_057 && Bound(3) == 33_825;
  }

  // ---------- Audit details ----------

  const MAX_DETAIL_DEPTH: nat := 8
  const MAX_DETAIL_ENTRIES: nat := 64
  const DIGEST_PREFIX: string := "sha256:"

  /** `identifierKey` holds of the keys whose values the strict mode replaces and of none in the
      standard mode; `digest` gives the hexadecimal digits shown instead. `plain` is the check that
      a string has printable ASCII only. */
  datatype DetailRules = DetailRules(
    forbiddenKey: string -> bool, identifierKey: string -> bool, digest: string -> string,
    plain: string -> bool, forbidden: string -> bool, allowed: (string, string) -> bool)

  /** `redact_identifier_value` */
  function Mask(rules: DetailRules, v: Json): Json {
    match v
    case Str(s) => Str(DIGEST_PREFIX + rules.digest(s))
    case _ => REDACTED
  }

  predicate DetailString(rules: DetailRules, key: Option<string>, s: string) {
    key.Some? && |s| <= MAX_STRING_BYTES && rules.plain(s) && !rules.forbidden(s) && rules.allowed(key.value, s)
  }

  function Redact(rules: DetailRules, key: Option<string>, v: Json, depth: nat): Json
    decreases v, 0
  {
    if depth >= MAX_DETAIL_DEPTH then REDACTED
    else
      match v
      case Object(fields) => Object(RedactFields(rules, fields, depth + 1, MAX_DETAIL_ENTRIES))
      case Array(items) => Array(RedactItems(rules, key, items, depth + 1, MAX_DETAIL_ENTRIES))
      case Str(s) => if DetailString(rules, key, s) then v else REDACTED
      case _ => v
  }

  function RedactField(rules: DetailRules, k: string, v: Json, depth: nat): Json
    decreases v, 1
  {
    if rules.forbiddenKey(k) then REDACTED
    else if rules.identifierKey(k) then Mask(rules, v)
    else Redact(rules, Some(k), v, depth)
  }

  /** The first `n` entries. */
  function RedactFields(rules: DetailRules, fields: seq<Field>, depth: nat, n: nat): seq<Field>
    decreases fields
  {
    if fields == [] || n == 0 then []
    else
      [Field(fields[0].key, RedactField(rules, fields[0].key, fields[0].value, depth))]
      + RedactFields(rules, fields[1..], depth, n - 1)
  }

  function RedactItems(rules: DetailRules, key: Option<string>, items: seq<Json>, depth: nat, n: nat): seq<Json>
    decreases items
  {
    if items == [] || n == 0 then []
    else [Redact(rules, key, items[0], depth)] + RedactItems(rules, key, items[1..], depth, n - 1)
  }

  lemma {:induction false} DetailFieldsOneByOne(rules: DetailRules, fields: seq<Field>, depth: nat, n: nat)
    ensures |RedactFields(rules, fields, depth, n)| == Min(|fields|, n)
    ensures forall i :: 0 <= i < Min(|fields|, n) ==>
              RedactFields(rules, fields, depth, n)[i]
              == Field(fields[i].key, RedactField(rules, fields[i].key, fields[i].value, depth))
    decreases |fields|
  {
    if fields != [] && n > 0 { DetailFieldsOneByOne(rules, fields[1..], depth, n - 1); }
  }

  lemma {:induction false} DetailItemsOneByOne(rules: DetailRules, key: Option<string>, items: seq<Json>, depth: nat,
                                               n: nat)
    ensures |RedactItems(rules, key, items, depth, n)| == Min(|items|, n)
    ensures forall i :: 0 <= i < Min(|items|, n) ==>
              RedactItems(rules, key, items, depth, n)[i] == Redact(rules, key, items[i], depth)
    decreases |items|
  {
    if items != [] && n > 0 { DetailItemsOneByOne(rules, key, items[1..], depth, n - 1); }
  }

  /** Each level of a detail keeps its first 64 entries in order: under a forbidden key the marker, under an
      identifier the digest of a string or the marker, and otherwise the entry redacted by itself. */
  lemma DetailLevel(rules: DetailRules, key: Option<string>, v: Json, depth: nat)
    ensures var r := Redact(rules, key, v, depth);
            if depth >= 8 then r == Str("<redacted>")
            else
              match v
              case Object(fields) =>
                && r.Object? && |r.fields| == Min(|fields|, 64)
                && forall i :: 0 <= i < |r.fields| ==>
                     var k, x := fields[i].key, fields[i].value;
                     && r.fields[i].key == k
                     && r.fields[i].value ==
                        (if rules.forbiddenKey(k) then Str("<redacted>")
                         else if rules.identifierKey(k) then
                           if x.Str? then Str("sha256:" + rules.digest(x.s)) else Str("<redacted>")
                         else Redact(rules, Some(k), x, depth + 1))
              case Array(items) =>
                && r.Array? && |r.items| == Min(|items|, 64)
                && forall i :: 0 <= i < |r.items| ==> r.items[i] == Redact(rules, key, items[i], depth + 1)
              case Str(_) => r == v || r == Str("<redacted>")
              case _ => r == v
  {
    if v.Object? { DetailFieldsOneByOne(rules, v.fields, depth + 1, MAX_DETAIL_ENTRIES); }
    if v.Array? { DetailItemsOneByOne(rules, key, v.items, depth + 1, MAX_DETAIL_ENTRIES); }
  }

  // ---------- What a detail may contain ----------

  /** The marker or the digest of some string. */
  ghost predicate Masked(rules: DetailRules, v: Json) {
    v == REDACTED || exists s :: v == Mask(rules, Str(s))
  }

  /** At most 64 entries a level and 8 levels; forbidden keys show the marker, identifiers the marker
      or a digest; every other string is the marker or allowed under its key. */
  ghost predicate SafeDetail(rules: DetailRules, key: Option<string>, v: Json, depth: nat)
    decreases v, 0
  {
    if depth >= 8 then v == REDACTED
    else
      match v
      case Object(fields) =>
        && |fields| <= 64
        && forall i :: 0 <= i < |fields| ==> SafeField(rules, fields[i].key, fields[i].value, depth + 1)
      case Array(items) =>
        |items| <= 64 && forall i :: 0 <= i < |items| ==> SafeDetail(rules, key, items[i], depth + 1)
      case Str(s) =>
        v == REDACTED
        || (key.Some? && |s| <= 256 && rules.plain(s) && !rules.forbidden(s) && rules.allowed(key.value, s))
      case _ => true
  }

  ghost predicate SafeField(rules: DetailRules, k: string, v: Json, depth: nat)
    decreases v, 1
  {
    if rules.forbiddenKey(k) then v == REDACTED
    else if rules.identifierKey(k) then Masked(rules, v)
    else SafeDetail(rules, Some(k), v, depth)
  }

  /** In both modes a redacted detail is safe. */
  lemma {:induction false} RedactIsSafe(rules: DetailRules, key: Option<string>, v: Json, depth: nat)
    ensures SafeDetail(rules, key, Redact(rules, key, v, depth), depth)
    decreases v, 0
  {
    if depth < MAX_DETAIL_DEPTH {
      if v.Object? { FieldsAreSafe(rules, v.fields, depth + 1, MAX_DETAIL_ENTRIES); }
      if v.Array? { ItemsAreSafe(rules, key, v.items, depth + 1, MAX_DETAIL_ENTRIES); }
    }
  }

  lemma {:induction false} FieldIsSafe(rules: DetailRules, k: string, v: Json, depth: nat)
    ensures SafeField(rules, k, RedactField(rules, k, v, depth), depth)
    decreases v, 1
  {
    RedactIsSafe(rules, Some(k), v, depth);
  }

  lemma {:induction false} FieldsAreSafe(rules: DetailRules, fields: seq<Field>, depth: nat, n: nat)
    ensures var r := RedactFields(rules, fields, depth, n);
            |r| <= n && forall i :: 0 <= i < |r| ==> SafeField(rules, r[i].key, r[i].value, depth)
    decreases fields
  {
    if fields != [] && n > 0 {
      FieldsAreSafe(rules, fields[1..], depth, n - 1);
      FieldIsSafe(rules, fields[0].key, fields[0].value, depth);
    }
  }

  lemma {:induction false} ItemsAreSafe(rules: DetailRules, key: Option<string>, items: seq<Json>, depth: nat, n: nat)
    ensures var r := RedactItems(rules, key, items, depth, n);
            |r| <= n && forall i :: 0 <= i < |r| ==> SafeDetail(rules, key, r[i], depth)
    decreases items
  {
    if items != [] && n > 0 {
      ItemsAreSafe(rules, key, items[1..], depth, n - 1);
      RedactIsSafe(rules, key, items[0], depth);
    }
  }

  // ---------- Which details pass unchanged ----------

  /** As `SafeDetail`, but an identifier must already be its own mask. */
  predicate CleanDetail(rules: DetailRules, key: Option<string>, v: Json, depth: nat)
    decreases v, 0
  {
    if depth >= 8 then v == REDACTED
    else
      match v
      case Object(fields) =>
        && |fields| <= 64
        && forall i :: 0 <= i < |fields| ==> CleanField(rules, fields[i].key, fields[i].value, depth + 1)
      case Array(items) =>
        |items| <= 64 && forall i :: 0 <= i < |items| ==> CleanDetail(rules, key, items[i], depth + 1)
      case Str(s) =>
        v == REDACTED
        || (key.Some? && |s| <= 256 && rules.plain(s) && !rules.forbidden(s) && rules.allowed(key.value, s))
      case _ => true
  }

  predicate CleanField(rules: DetailRules, k: string, v: Json, depth: nat)
    decreases v, 1
  {
    if rules.forbiddenKey(k) then v == REDACTED
    else if rules.identifierKey(k) then Mask(rules, v) == v
    else CleanDetail(rules, Some(k), v, depth)
  }

  /** In both modes a detail passes unchanged exactly when it is clean. */
  lemma {:induction false} DetailFixedPoints(rules: DetailRules, key: Option<string>, v: Json, depth: nat)
    ensures Redact(rules, key, v, depth) == v <==> CleanDetail(rules, key, v, depth)
    decreases v, 0
  {
    if depth < MAX_DETAIL_DEPTH {
      if v.Object? { FixedFields(rules, v.fields, depth + 1, MAX_DETAIL_ENTRIES); }
      if v.Array? { FixedItems(rules, key, v.items, depth + 1, MAX_DETAIL_ENTRIES); }
    }
  }

  lemma {:induction false} FixedField(rules: DetailRules, k: string, v: Json, depth: nat)
    ensures RedactField(rules, k, v, depth) == v <==> CleanField(rules, k, v, depth)
    decreases v, 1
  {
    DetailFixedPoints(rules, Some(k), v, depth);
  }

  lemma {:induction false} FixedFields(rules: DetailRules, fields: seq<Field>, depth: nat, n: nat)
    ensures RedactFields(rules, fields, depth, n) == fields <==>
            |fields| <= n && forall i :: 0 <= i < |fields| ==> CleanField(rules, fields[i].key, fields[i].value, depth)
    decreases fields
  {
    if fields != [] && n > 0 {
      var shown, rest := RedactFields(rules, fields, depth, n), fields[1..];
      FixedField(rules, fields[0].key, fields[0].value, depth);
      FixedFields(rules, rest, depth, n - 1);
      assert shown[1..] == RedactFields(rules, rest, depth, n - 1) && fields == [fields[0]] + rest;
      assert forall i :: 1 <= i < |fields| ==> fields[i] == rest[i - 1];
    }
  }

  lemma {:induction false} FixedItems(rules: DetailRules, key: Option<string>, items: seq<Json>, depth: nat, n: nat)
    ensures RedactItems(rules, key, items, depth, n) == items <==>
            |items| <= n && forall i :: 0 <= i < |items| ==> CleanDetail(rules, key, items[i], depth)
    decreases items
  {
    if items != [] && n > 0 {
      var shown, rest := RedactItems(rules, key, items, depth, n), items[1..];
      DetailFixedPoints(rules, key, items[0], depth);
      FixedItems(rules, key, rest, depth, n - 1);
      assert shown[1..] == RedactItems(rules, key, rest, depth, n - 1) && items == [items[0]] + rest;
      assert forall i :: 1 <= i < |items| ==> items[i] == rest[i - 1];
    }
  }

  // ---------- Redacting twice ----------

  /** Some key is masked: the strict mode. */
  ghost predicate Masks(rules: DetailRules) {
    exists k :: rules.identifierKey(k) && !rules.forbiddenKey(k)
  }

  /** Without masks, a safe detail is clean. */
  lemma {:induction false} SafeIsCleanDetail(rules: DetailRules, key: Option<string>, v: Json, depth: nat)
    requires !Masks(rules) && SafeDetail(rules, key, v, depth)
    ensures CleanDetail(rules, key, v, depth)
    decreases v
  {
    if depth < MAX_DETAIL_DEPTH {
      if v.Object? {
        forall i | 0 <= i < |v.fields| ensures CleanField(rules, v.fields[i].key, v.fields[i].value, depth + 1) {
          var k := v.fields[i].key;
          assert SafeField(rules, k, v.fields[i].value, depth + 1);
          if !rules.forbiddenKey(k) { SafeIsCleanDetail(rules, Some(k), v.fields[i].value, depth + 1); }
        }
      }
      if v.Array? {
        forall i | 0 <= i < |v.items| ensures CleanDetail(rules, key, v.items[i], depth + 1) {
          SafeIsCleanDetail(rules, key, v.items[i], depth + 1);
        }
      }
    }
  }

  lemma MaskedField(rules: DetailRules, k: string, x: Json)
    requires rules.identifierKey(k) && !rules.forbiddenKey(k)
    ensures Redact(rules, None, Object([Field(k, x)]), 0) == Object([Field(k, Mask(rules, x))])
  {
    var one := [Field(k, x)];
    assert one[1..] == [] && RedactFields(rules, one[1..], 1, MAX_DETAIL_ENTRIES - 1) == [];
    assert RedactFields(rules, one, 1, MAX_DETAIL_ENTRIES) == [Field(k, RedactField(rules, k, x, 1))];
  }

  /** Redacting twice is redacting once, for every detail, exactly when no key is masked: so in the
      standard mode and never in the strict one, where the marker itself is masked again. */
  lemma RedactTwiceIffNoMasks(rules: DetailRules)
    ensures !Masks(rules) <==>
            forall v :: Redact(rules, None, Redact(rules, None, v, 0), 0) == Redact(rules, None, v, 0)
  {
    if !Masks(rules) {
      forall v ensures Redact(rules, None, Redact(rules, None, v, 0), 0) == Redact(rules, None, v, 0) {
        var once := Redact(rules, None, v, 0);
        RedactIsSafe(rules, None, v, 0);
        SafeIsCleanDetail(rules, None, once, 0);
        DetailFixedPoints(rules, None, once, 0);
      }
    } else {
      var k :| rules.identifierKey(k) && !rules.forbiddenKey(k);
      MaskedField(rules, k, Null);
      MaskedField(rules, k, REDACTED);
      assert Mask(rules, REDACTED).s[0] == 's' && REDACTED.s[0] == '<';
      var v := Object([Field(k, Null)]);
      assert Redact(rules, None, Redact(rules, None, v, 0), 0) != Redact(rules, None, v, 0);
    }
  }
}
