/** The agent's replay cache: a nested map of nonces, an expiry heap and a running
    counter, kept in step with one flat map from (peer, nonce) to expiry. */
module NonceCache {
  import opened Maps
  import opened Outcomes

  datatype NonceLimitScope = Global | PerPeer

  datatype NonceDecision =
    | Accepted
    | Replay
    | ResourceExhausted(scope: NonceLimitScope, limit: nat)

  datatype ExpiryEntry = ExpiryEntry(expiresAt: int, peer: string, nonce: string)

  type NonceKey = (string, string)
  type Live = map<NonceKey, int>
  type Peers = map<string, map<string, int>>

  /** The last representable instant, in nanoseconds (a signed 64-bit second count). */
  const INSTANT_MAX: int := 0x7FFF_FFFF_FFFF_FFFF * 1_000_000_000 + 999_999_999

  /** `now.checked_add(ttl).unwrap_or(now)` */
  function ExpiresAt(now: int, ttl: nat): int {
    if now + ttl <= INSTANT_MAX then now + ttl else now
  }

  /** An expiry is the end of the lifetime, or the present if that is beyond all instants. */
  lemma ExpiryFits(now: int, ttl: nat)
    requires now <= 0x7FFF_FFFF_FFFF_FFFF * 1_000_000_000 + 999_999_999
    ensures now <= ExpiresAt(now, ttl) <= 0x7FFF_FFFF_FFFF_FFFF * 1_000_000_000 + 999_999_999
    ensures ExpiresAt(now, ttl) == now + ttl
            || (ExpiresAt(now, ttl) == now && now + ttl > 0x7FFF_FFFF_FFFF_FFFF * 1_000_000_000 + 999_999_999)
  {}

  // ---------- Reference: one flat map ----------

  function Unexpired(live: Live, now: int): Live {
    map k | k in live && live[k] > now :: live[k]
  }

  function PeerKeys(live: Live, peer: string): set<NonceKey> {
    set k | k in live && k.0 == peer
  }

  /** Replay, then the peer's limit, then the global limit, then admission. */
  function Answer(kept: Live, maxGlobal: nat, maxPerPeer: nat,
                  peer: string, nonce: string, expiresAt: int): (Live, NonceDecision) {
    if (peer, nonce) in kept then (kept, Replay)
    else if |PeerKeys(kept, peer)| >= maxPerPeer then (kept, ResourceExhausted(PerPeer, maxPerPeer))
    else if |kept| >= maxGlobal then (kept, ResourceExhausted(Global, maxGlobal))
    else (kept[(peer, nonce) := expiresAt], Accepted)
  }

  /** Drop everything that has expired, then answer from what is left. */
  function NaiveRegister(live: Live, maxGlobal: nat, maxPerPeer: nat,
                         now: int, peer: string, nonce: string, ttl: nat): (Live, NonceDecision) {
    Answer(Unexpired(live, now), maxGlobal, maxPerPeer, peer, nonce, ExpiresAt(now, ttl))
  }

  ghost predicate WithinLimits(live: Live, maxGlobal: nat, maxPerPeer: nat) {
    |live| <= maxGlobal && forall p :: |PeerKeys(live, p)| <= maxPerPeer
  }

  lemma UnexpiredShrinks(live: Live, now: int, peer: string)
    ensures |Unexpired(live, now)| <= |live|
    ensures |PeerKeys(Unexpired(live, now), peer)| <= |PeerKeys(live, peer)|
  {
    SubsetSize(Unexpired(live, now).Keys, live.Keys);
    SubsetSize(PeerKeys(Unexpired(live, now), peer), PeerKeys(live, peer));
  }

  lemma UnexpiredWithinLimits(live: Live, maxGlobal: nat, maxPerPeer: nat, now: int)
    requires WithinLimits(live, maxGlobal, maxPerPeer)
    ensures WithinLimits(Unexpired(live, now), maxGlobal, maxPerPeer)
  {
    UnexpiredShrinks(live, now, "");
    forall p ensures |PeerKeys(Unexpired(live, now), p)| <= maxPerPeer { UnexpiredShrinks(live, now, p); }
  }

  lemma AnswerWithinLimits(kept: Live, maxGlobal: nat, maxPerPeer: nat, peer: string, nonce: string, expiresAt: int)
    requires WithinLimits(kept, maxGlobal, maxPerPeer)
    ensures WithinLimits(Answer(kept, maxGlobal, maxPerPeer, peer, nonce, expiresAt).0, maxGlobal, maxPerPeer)
  {
    var after := Answer(kept, maxGlobal, maxPerPeer, peer, nonce, expiresAt).0;
    if after != kept {
      InsertSize(kept, (peer, nonce), expiresAt);
      forall p ensures |PeerKeys(after, p)| <= maxPerPeer {
        assert PeerKeys(after, p) == if p == peer then PeerKeys(kept, p) + {(peer, nonce)} else PeerKeys(kept, p);
      }
    }
  }

  /** Neither limit is ever exceeded. */
  lemma RegisterWithinLimits(live: Live, maxGlobal: nat, maxPerPeer: nat,
                             now: int, peer: string, nonce: string, ttl: nat)
    requires WithinLimits(live, maxGlobal, maxPerPeer)
    ensures WithinLimits(NaiveRegister(live, maxGlobal, maxPerPeer, now, peer, nonce, ttl).0, maxGlobal, maxPerPeer)
  {
    UnexpiredWithinLimits(live, maxGlobal, maxPerPeer, now);
    AnswerWithinLimits(Unexpired(live, now), maxGlobal, maxPerPeer, peer, nonce, ExpiresAt(now, ttl));
  }

  // ---------- The nested map against the flat one ----------

  predicate Has(peers: Peers, k: NonceKey) {
    k.0 in peers && k.1 in peers[k.0]
  }

  /** `peers` holds the same nonces as `live`, grouped by peer. */
  ghost predicate Grouped(peers: Peers, live: Live) {
    forall k: NonceKey {:trigger Has(peers, k)} {:trigger k in live} ::
      (Has(peers, k) <==> k in live) && (k in live ==> peers[k.0][k.1] == live[k])
  }

  ghost predicate NoEmptyPeer(peers: Peers) {
    forall p :: p in peers ==> |peers[p]| > 0
  }

  function Erase(peers: Peers, peer: string, nonce: string): Peers
    requires peer in peers
  {
    var nonces := peers[peer] - {nonce};
    if |nonces| == 0 then peers - {peer} else peers[peer := nonces]
  }

  function Insert(peers: Peers, peer: string, nonce: string, expiresAt: int): Peers {
    var nonces := if peer in peers then peers[peer] else map[];
    peers[peer := nonces[nonce := expiresAt]]
  }

  lemma EraseGrouped(peers: Peers, live: Live, peer: string, nonce: string)
    requires Grouped(peers, live) && NoEmptyPeer(peers) && (peer, nonce) in live
    ensures Grouped(Erase(peers, peer, nonce), live - {(peer, nonce)})
    ensures NoEmptyPeer(Erase(peers, peer, nonce))
  {
    assert Has(peers, (peer, nonce));
  }

  lemma InsertGrouped(peers: Peers, live: Live, peer: string, nonce: string, expiresAt: int)
    requires Grouped(peers, live) && NoEmptyPeer(peers)
    ensures Grouped(Insert(peers, peer, nonce, expiresAt), live[(peer, nonce) := expiresAt])
    ensures NoEmptyPeer(Insert(peers, peer, nonce, expiresAt))
  {}

  lemma {:induction false} RowCount(peer: string, nonces: set<string>, keys: set<NonceKey>)
    requires forall k :: k in keys ==> k.0 == peer && k.1 in nonces
    requires forall n :: n in nonces ==> (peer, n) in keys
    ensures |keys| == |nonces|
  {
    if nonces == {} {
      assert keys == {};
    } else {
      var n :| n in nonces;
      RowCount(peer, nonces - {n}, keys - {(peer, n)});
    }
  }

  /** A peer's live count is the size of its own inner map. */
  lemma PeerCount(peers: Peers, live: Live, peer: string)
    requires Grouped(peers, live)
    ensures |PeerKeys(live, peer)| == if peer in peers then |peers[peer]| else 0
  {
    var nonces := if peer in peers then peers[peer].Keys else {};
    assert forall n :: n in nonces ==> Has(peers, (peer, n));
    RowCount(peer, nonces, PeerKeys(live, peer));
  }

  ghost function Sizes(peers: Peers): map<string, nat> {
    map p | p in peers :: |peers[p]|
  }

  lemma SizesWithout(peers: Peers, peer: string)
    requires peer in peers
    ensures Sum(Sizes(peers)) == |peers[peer]| + Sum(Sizes(peers - {peer}))
  {
    var sizes := Sizes(peers);
    assert sizes - {peer} == Sizes(peers - {peer}) && sizes[peer] == |peers[peer]|;
    SumWithout(sizes, peer);
  }

  lemma DropPeerGrouped(peers: Peers, live: Live, peer: string)
    requires Grouped(peers, live)
    ensures Grouped(peers - {peer}, live - PeerKeys(live, peer))
    ensures |live| == |live - PeerKeys(live, peer)| + |PeerKeys(live, peer)|
  {
    var after := peers - {peer};
    forall k: NonceKey ensures Has(after, k) <==> Has(peers, k) && k.0 != peer {}
    assert live.Keys == (live - PeerKeys(live, peer)).Keys + PeerKeys(live, peer);
  }

  /** The number of live nonces is the sum of the peers' sizes. */
  lemma {:induction false} LiveIsSumOfPeers(peers: Peers, live: Live)
    requires Grouped(peers, live)
    ensures |live| == Sum(Sizes(peers))
    decreases |peers|
  {
    if peers == map[] {
      assert forall k: NonceKey :: !Has(peers, k);
      assert live == map[];
    } else {
      var p :| p in peers;
      RemoveSize(peers, p);
      PeerCount(peers, live, p);
      DropPeerGrouped(peers, live, p);
      LiveIsSumOfPeers(peers - {p}, live - PeerKeys(live, p));
      SizesWithout(peers, p);
    }
  }

  // ---------- The expiry heap ----------

  /** Every live nonce is queued for expiry. */
  ghost predicate Queued(heap: multiset<ExpiryEntry>, live: Live) {
    forall k :: k in live ==> ExpiryEntry(live[k], k.0, k.1) in heap
  }

  predicate IsLive(live: Live, e: ExpiryEntry) {
    (e.peer, e.nonce) in live && live[(e.peer, e.nonce)] == e.expiresAt
  }

  /** Every live nonce is queued exactly once and nothing else is queued. */
  ghost predicate QueuedOnce(heap: multiset<ExpiryEntry>, live: Live) {
    forall e: ExpiryEntry :: heap[e] == if IsLive(live, e) then 1 else 0
  }

  function Pop(heap: multiset<ExpiryEntry>, e: ExpiryEntry): multiset<ExpiryEntry>
    requires e in heap
  {
    heap[e := heap[e] - 1]
  }

  lemma PopQueued(heap: multiset<ExpiryEntry>, live: Live, e: ExpiryEntry)
    requires Queued(heap, live) && e in heap
    ensures Queued(Pop(heap, e), Without(live, e))
  {
  }

  /** The heap's top: an entry that expires first (any one of them on a tie). */
  method Peek(heap: multiset<ExpiryEntry>) returns (top: ExpiryEntry)
    requires |heap| > 0
    ensures top in heap
    ensures forall e :: e in heap ==> top.expiresAt <= e.expiresAt
  {
    top :| top in heap;
    var rest := heap[top := 0];
    while |rest| > 0
      invariant rest <= heap && top in heap
      invariant forall e :: e in heap ==> e in rest || top.expiresAt <= e.expiresAt
      decreases |rest|
    {
      var e :| e in rest;
      if e.expiresAt < top.expiresAt { top := e; }
      rest := rest[e := 0];
    }
  }

  // ---------- The three structures together ----------

  /** Same nonces, no empty peer, all queued, counter right. */
  ghost predicate Consistent(peers: Peers, heap: multiset<ExpiryEntry>, total: nat, live: Live) {
    Grouped(peers, live) && NoEmptyPeer(peers) && Queued(heap, live) && total == |live|
  }

  /** `after` is `before` without some of what had expired by `now`. */
  ghost predicate Forgot(before: Live, after: Live, now: int) {
    && (forall k :: k in after ==> k in before && before[k] == after[k])
    && (forall k :: k in before ==> k in after || before[k] <= now)
  }

  /** `after` is `before` without some of what was due by `now`. */
  ghost predicate Popped(before: multiset<ExpiryEntry>, after: multiset<ExpiryEntry>, now: int) {
    forall e: ExpiryEntry :: after[e] <= before[e] && (e.expiresAt > now ==> after[e] == before[e])
  }

  /** The flat map once `e` has been popped: a stale entry takes nothing with it. */
  function Without(live: Live, e: ExpiryEntry): Live {
    if IsLive(live, e) then live - {(e.peer, e.nonce)} else live
  }

  /** Forgets the nonce a popped entry stands for, unless the entry is stale. */
  method ForgetEntry(peers: Peers, heap: multiset<ExpiryEntry>, total: nat, ghost live: Live, entry: ExpiryEntry)
    returns (peers': Peers, total': nat)
    requires Consistent(peers, heap, total, live) && entry in heap
    ensures Consistent(peers', Pop(heap, entry), total', Without(live, entry))
  {
    peers', total' := peers, total;
    PopQueued(heap, live, entry);
    if Has(peers, (entry.peer, entry.nonce)) && peers[entry.peer][entry.nonce] == entry.expiresAt {
      EraseGrouped(peers, live, entry.peer, entry.nonce);
      RemoveSize(live, (entry.peer, entry.nonce));
      peers' := Erase(peers, entry.peer, entry.nonce);
      total' := SaturatingSub(total, 1);
    }
  }

  lemma PopOne(live: Live, live': Live, heap: multiset<ExpiryEntry>, heap': multiset<ExpiryEntry>, e: ExpiryEntry,
               now: int)
    requires Forgot(live, live', now) && Popped(heap, heap', now) && e in heap' && e.expiresAt <= now
    ensures Forgot(live, Without(live', e), now) && Popped(heap, Pop(heap', e), now)
    ensures |Pop(heap', e)| == |heap'| - 1
  {}

  /** Pops while the top is due. */
  method PopDue(peers: Peers, heap: multiset<ExpiryEntry>, total: nat, ghost live: Live, now: int)
    returns (peers': Peers, heap': multiset<ExpiryEntry>, total': nat, popped: nat)
    requires Consistent(peers, heap, total, live)
    ensures Consistent(peers', heap', total', Unexpired(live, now))
    ensures QueuedOnce(heap, live) ==> QueuedOnce(heap', Unexpired(live, now))
    ensures popped + |heap'| == |heap|
  {
    peers', heap', total', popped := peers, heap, total, 0;
    ghost var live' := live;
    while |heap'| > 0
      invariant Consistent(peers', heap', total', live')
      invariant Forgot(live, live', now) && Popped(heap, heap', now)
      invariant popped + |heap'| == |heap|
      decreases |heap'|
    {
      var entry := Peek(heap');
      if entry.expiresAt > now { break; }
      PopOne(live, live', heap, heap', entry, now);
      peers', total' := ForgetEntry(peers', heap', total', live', entry);
      live' := Without(live', entry);
      heap' := Pop(heap', entry);
      popped := popped + 1;
    }
    PrunedExactly(live, live', heap, heap', now);
  }

  /** Pruning forgets exactly what has expired and keeps one entry per remaining nonce. */
  lemma PrunedExactly(live: Live, live': Live, heap: multiset<ExpiryEntry>, heap': multiset<ExpiryEntry>, now: int)
    requires Forgot(live, live', now) && Popped(heap, heap', now) && Queued(heap', live')
    requires forall e :: e in heap' ==> e.expiresAt > now
    ensures live' == Unexpired(live, now)
    ensures QueuedOnce(heap, live) ==> QueuedOnce(heap', live')
  {}

  ghost predicate Sound(peers: Peers, heap: multiset<ExpiryEntry>, total: nat, live: Live) {
    Consistent(peers, heap, total, live) && QueuedOnce(heap, live)
  }

  lemma EnqueueSound(peers: Peers, heap: multiset<ExpiryEntry>, total: nat, live: Live,
                     expiresAt: int, peer: string, nonce: string)
    requires Sound(peers, heap, total, live) && (peer, nonce) !in live
    ensures Sound(Insert(peers, peer, nonce, expiresAt), heap + multiset{ExpiryEntry(expiresAt, peer, nonce)},
                  total + 1, live[(peer, nonce) := expiresAt])
  {
    InsertGrouped(peers, live, peer, nonce, expiresAt);
    InsertSize(live, (peer, nonce), expiresAt);
  }

  /** Answers from the nested map and the counter what the flat map would answer. */
  method Admit(peers: Peers, heap: multiset<ExpiryEntry>, total: nat, ghost kept: Live,
               maxGlobal: nat, maxPerPeer: nat, peer: string, nonce: string, expiresAt: int)
    returns (peers': Peers, heap': multiset<ExpiryEntry>, total': nat, decision: NonceDecision)
    requires Sound(peers, heap, total, kept)
    ensures decision == Answer(kept, maxGlobal, maxPerPeer, peer, nonce, expiresAt).1
    ensures Sound(peers', heap', total', Answer(kept, maxGlobal, maxPerPeer, peer, nonce, expiresAt).0)
  {
    peers', heap', total' := peers, heap, total;
    PeerCount(peers, kept, peer);
    if Has(peers, (peer, nonce)) { return peers', heap', total', Replay; }
    var peerLiveCount := if peer in peers then |peers[peer]| else 0;
    if peerLiveCount >= maxPerPeer {
      return peers', heap', total', ResourceExhausted(PerPeer, maxPerPeer);
    }
    if total >= maxGlobal {
      return peers', heap', total', ResourceExhausted(Global, maxGlobal);
    }
    EnqueueSound(peers, heap, total, kept, expiresAt, peer, nonce);
    peers' := Insert(peers, peer, nonce, expiresAt);
    total' := total + 1;
    heap' := heap + multiset{ExpiryEntry(expiresAt, peer, nonce)};
    decision := Accepted;
  }

  /** Prune, then answer. */
  method Register(peers: Peers, heap: multiset<ExpiryEntry>, total: nat, ghost live: Live,
                  maxGlobal: nat, maxPerPeer: nat, now: int, peer: string, nonce: string, ttl: nat)
    returns (peers': Peers, heap': multiset<ExpiryEntry>, total': nat, decision: NonceDecision)
    requires Sound(peers, heap, total, live)
    ensures decision == NaiveRegister(live, maxGlobal, maxPerPeer, now, peer, nonce, ttl).1
    ensures Sound(peers', heap', total', NaiveRegister(live, maxGlobal, maxPerPeer, now, peer, nonce, ttl).0)
  {
    var popped;
    peers', heap', total', popped := PopDue(peers, heap, total, live, now);
    peers', heap', total', decision :=
      Admit(peers', heap', total', Unexpired(live, now), maxGlobal, maxPerPeer, peer, nonce, ExpiresAt(now, ttl));
  }

  // ---------- The cache ----------

  /** The three structures the cache updates together. */
  datatype Structures = Structures(peers: Peers, expirations: multiset<ExpiryEntry>, liveTotal: nat)

  class Cache {
    var held: Structures
    const maxGlobal: nat
    const maxPerPeer: nat
    /** The flat map this cache stands for. */
    ghost var live: Live

    ghost predicate Valid()
      reads this
    {
      Sound(held.peers, held.expirations, held.liveTotal, live) && WithinLimits(live, maxGlobal, maxPerPeer)
    }

    constructor (maxGlobal: nat, maxPerPeer: nat)
      ensures Valid() && live == map[]
      ensures this.maxGlobal == maxGlobal && this.maxPerPeer == maxPerPeer
    {
      held, live := Structures(map[], multiset{}, 0), map[];
      this.maxGlobal, this.maxPerPeer := maxGlobal, maxPerPeer;
    }

    /** Forgets exactly the nonces that have expired, however many stale entries the heap holds. */
    method PruneExpiredAt(now: int) returns (popped: nat)
      requires Consistent(held.peers, held.expirations, held.liveTotal, live)
      modifies this
      ensures Consistent(held.peers, held.expirations, held.liveTotal, live)
      ensures live == Unexpired(old(live), now)
      ensures QueuedOnce(old(held.expirations), old(live)) ==> QueuedOnce(held.expirations, live)
      ensures popped + |held.expirations| == old(|held.expirations|)
    {
      var peers, heap, total;
      peers, heap, total, popped := PopDue(held.peers, held.expirations, held.liveTotal, live, now);
      held, live := Structures(peers, heap, total), Unexpired(live, now);
    }

    /** Every decision, and the nonces remembered after it, are those of the flat map. */
    method RegisterAt(now: int, peer: string, nonce: string, ttl: nat) returns (decision: NonceDecision)
      requires Valid()
      modifies this
      ensures Valid()
      ensures (live, decision) ==
              NaiveRegister(old(live), maxGlobal, maxPerPeer, now, peer, nonce, ttl)
    {
      RegisterWithinLimits(live, maxGlobal, maxPerPeer, now, peer, nonce, ttl);
      var peers, heap, total;
      peers, heap, total, decision :=
        Register(held.peers, held.expirations, held.liveTotal, live, maxGlobal, maxPerPeer, now, peer, nonce, ttl);
      held, live := Structures(peers, heap, total), NaiveRegister(live, maxGlobal, maxPerPeer, now, peer, nonce, ttl).0;
    }
  }
}
