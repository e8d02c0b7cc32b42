/** Alert candidates from three sources, sorted by dedupe key and stripped of repeated keys. */
module AlertCandidates {
  import opened Ordering
  import opened Outcomes
  import opened Sorting

  datatype Candidate = Candidate(key: string, severity: string, reason: string)

  predicate KeyAtMost(a: Candidate, b: Candidate) {
    a.key == b.key || TextLess(a.key, b.key)
  }

  /** Keeps the first of every stretch of equal keys. */
  function Dedup(s: seq<Candidate>): seq<Candidate> {
    if s == [] then []
    else
      var kept, last := Dedup(s[..|s| - 1]), s[|s| - 1];
      if kept != [] && kept[|kept| - 1].key == last.key then kept else kept + [last]
  }

  function Candidates(health: seq<Candidate>, probes: seq<Candidate>, trust: seq<Candidate>): seq<Candidate> {
    Dedup(Sort(health + probes + trust, KeyAtMost))
  }

  /** The first candidate with the key, in source order. */
  function First(s: seq<Candidate>, key: string): Option<Candidate> {
    if s == [] then None else if s[0].key == key then Some(s[0]) else First(s[1..], key)
  }

  lemma KeyOrder()
    ensures TotalPreorder(KeyAtMost)
  {
    forall a: Candidate, b: Candidate ensures KeyAtMost(a, b) || KeyAtMost(b, a) { TextConnected(a.key, b.key); }
    forall a: Candidate, b: Candidate, c: Candidate | KeyAtMost(a, b) && KeyAtMost(b, c) ensures KeyAtMost(a, c) {
      if a.key != b.key && b.key != c.key { TextTransitive(a.key, b.key, c.key); }
    }
  }

  lemma {:induction false} FirstInserted(x: Candidate, s: seq<Candidate>, key: string)
    ensures First(Insert(x, s, KeyAtMost), key) == if x.key == key then Some(x) else First(s, key)
  {
    if s != [] && !KeyAtMost(x, s[0]) { FirstInserted(x, s[1..], key); }
  }

  /** The sort is stable. */
  lemma {:induction false} FirstSorted(s: seq<Candidate>, key: string)
    ensures First(Sort(s, KeyAtMost), key) == First(s, key)
  {
    if s != [] {
      FirstSorted(s[1..], key);
      FirstInserted(s[0], Sort(s[1..], KeyAtMost), key);
    }
  }

  lemma {:induction false} FirstAppended(s: seq<Candidate>, x: Candidate, key: string)
    ensures First(s + [x], key) == if First(s, key).Some? then First(s, key) else if x.key == key then Some(x) else None
  {
    if s != [] {
      FirstAppended(s[1..], x, key);
      assert (s + [x])[1..] == s[1..] + [x];
    }
  }

  lemma {:induction false} FirstOfMember(s: seq<Candidate>, i: nat)
    requires i < |s|
    ensures First(s, s[i].key).Some?
  {
    if s[0].key != s[i].key { FirstOfMember(s[1..], i - 1); }
  }

  lemma {:induction false} FirstKept(s: seq<Candidate>, key: string)
    ensures First(Dedup(s), key) == First(s, key)
  {
    if s != [] {
      var front, last := s[..|s| - 1], s[|s| - 1];
      var kept := Dedup(front);
      FirstKept(front, key);
      assert s == front + [last];
      FirstAppended(front, last, key);
      if kept != [] && kept[|kept| - 1].key == last.key {
        FirstOfMember(kept, |kept| - 1);
      } else {
        FirstAppended(kept, last, key);
      }
    }
  }

  predicate StrictlyIncreasing(s: seq<Candidate>) {
    forall i, j :: 0 <= i < j < |s| ==> TextLess(s[i].key, s[j].key)
  }

  lemma {:induction false} DedupIncreasing(s: seq<Candidate>)
    requires Sorted(s, KeyAtMost)
    ensures StrictlyIncreasing(Dedup(s))
    ensures s != [] ==> Dedup(s) != [] && Dedup(s)[|Dedup(s)| - 1].key == s[|s| - 1].key
  {
    if |s| > 1 {
      var front, last := s[..|s| - 1], s[|s| - 1];
      var kept := Dedup(front);
      DedupIncreasing(front);
      assert KeyAtMost(s[|s| - 2], last);
      forall i | 0 <= i < |kept| - 1 ensures kept[|kept| - 1].key != last.key ==> TextLess(kept[i].key, last.key) {
        if kept[|kept| - 1].key != last.key { TextTransitive(kept[i].key, kept[|kept| - 1].key, last.key); }
      }
    }
  }

  lemma {:induction false} FirstIsMember(s: seq<Candidate>, i: nat)
    requires StrictlyIncreasing(s) && i < |s|
    ensures First(s, s[i].key) == Some(s[i])
  {
    if i > 0 {
      TextIrreflexive(s[i].key);
      FirstIsMember(s[1..], i - 1);
    }
  }

  /** Keys come out strictly increasing; each is the first candidate the sources gave for its
      key, and no key is missing. */
  lemma FirstSourceWins(health: seq<Candidate>, probes: seq<Candidate>, trust: seq<Candidate>)
    ensures StrictlyIncreasing(Candidates(health, probes, trust))
    ensures var all, out := health + probes + trust, Candidates(health, probes, trust);
            forall i :: 0 <= i < |out| ==> First(all, out[i].key) == Some(out[i])
    ensures forall key :: First(Candidates(health, probes, trust), key) == First(health + probes + trust, key)
  {
    var all, out := health + probes + trust, Candidates(health, probes, trust);
    KeyOrder();
    SortCorrect(all, KeyAtMost);
    DedupIncreasing(Sort(all, KeyAtMost));
    forall key ensures First(out, key) == First(all, key) {
      FirstKept(Sort(all, KeyAtMost), key);
      FirstSorted(all, key);
    }
    forall i | 0 <= i < |out| ensures First(all, out[i].key) == Some(out[i]) {
      FirstIsMember(out, i);
    }
  }
}
