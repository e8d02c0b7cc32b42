/** Signed page cursors: expiry, signing-key rotation and the encode/decode round trip.
    The JSON-and-base64 codec and the MAC are parameters; text is a string of bytes. */
module Cursor {
  import opened Outcomes

  type Bytes = seq<bv8>

  const CURSOR_TTL_SECONDS: nat := 24 * 60 * 60
  const MAX_CURSOR_BYTES: nat := 2_048
  const MAX_AFTER_BYTES: nat := 256
  const CURSOR_VERSION: nat := 2
  const DOT: bv8 := 46
  const I64_MAX: int := 0x7FFF_FFFF_FFFF_FFFF
  const I64_MIN: int := -0x8000_0000_0000_0000

  datatype Payload = Payload(
    version: nat, keyId: string, expiresAt: int, resource: string, after: string, filterHash: string)

  datatype Position = Position(resource: string, after: string, filterHash: string)

  datatype Key = Key(id: string, secret: Bytes)

  datatype Keyring = Keyring(current: Key, previous: Option<Key>) {
    predicate Valid() { previous.Some? ==> previous.value.id != current.id }

    function Find(id: string): Option<Key> {
      if current.id == id then Some(current)
      else if previous.Some? && previous.value.id == id then previous
      else None
    }
  }

  /** `decode` undoes `encode`, whose output alphabet has no dot. */
  datatype Codec = Codec(encode: Payload -> Bytes, decode: Bytes -> Option<Payload>, mac: (Bytes, Bytes) -> Bytes) {
    ghost predicate Faithful() {
      (forall p :: decode(encode(p)) == Some(p)) && (forall p :: DOT !in encode(p))
    }
  }

  datatype CursorError = TooLarge | Malformed | InvalidPayload | InvalidSignature | Mismatch

  function Saturate(x: int): int {
    Max(I64_MIN, Min(x, I64_MAX))
  }

  function CursorExpiry(now: int): int {
    Saturate(Saturate(now / CURSOR_TTL_SECONDS + 2) * CURSOR_TTL_SECONDS)
  }

  /** A cursor lives for more than one and at most two days, to the end of a day. */
  lemma ExpiryWindow(now: int)
    requires I64_MIN <= now && now <= I64_MAX - 2 * 86_400
    ensures now + 86_400 < CursorExpiry(now) <= now + 2 * 86_400
    ensures CursorExpiry(now) % 86_400 == 0
  {
  }

  function Difference(left: Bytes, right: Bytes): bv8
    requires |left| == |right|
  {
    if left == [] then 0
    else Difference(left[..|left| - 1], right[..|right| - 1]) | (left[|left| - 1] ^ right[|right| - 1])
  }

  predicate ConstantTimeEq(left: Bytes, right: Bytes) {
    |left| == |right| && Difference(left, right) == 0
  }

  lemma OrXorZero(d: bv8, a: bv8, b: bv8)
    ensures d | (a ^ b) == 0 <==> d == 0 && a == b
  {
  }

  /** Comparing every byte decides equality. */
  lemma {:induction false} ConstantTimeEqDecides(left: Bytes, right: Bytes)
    ensures ConstantTimeEq(left, right) <==> left == right
  {
    if left != [] && |left| == |right| {
      var l, r := left[..|left| - 1], right[..|right| - 1];
      ConstantTimeEqDecides(l, r);
      OrXorZero(Difference(l, r), left[|left| - 1], right[|right| - 1]);
      assert left == l + [left[|left| - 1]] && right == r + [right[|right| - 1]];
    }
  }

  function SplitOnce(cursor: Bytes): Option<(Bytes, Bytes)> {
    if cursor == [] then None
    else if cursor[0] == DOT then Some(([], cursor[1..]))
    else
      match SplitOnce(cursor[1..])
      case None => None
      case Some((a, b)) => Some(([cursor[0]] + a, b))
  }

  lemma {:induction false} SplitOnceAtDot(head: Bytes, tail: Bytes)
    requires DOT !in head
    ensures SplitOnce(head + [DOT] + tail) == Some((head, tail))
  {
    var whole := head + [DOT] + tail;
    if head == [] {
      assert whole[1..] == tail;
    } else {
      assert head == [head[0]] + head[1..];
      SplitOnceAtDot(head[1..], tail);
      assert whole[1..] == head[1..] + [DOT] + tail;
    }
  }

  lemma {:induction false} SplitOnceFinds(cursor: Bytes)
    ensures SplitOnce(cursor).None? <==> DOT !in cursor
    ensures SplitOnce(cursor).Some? ==>
              var (head, tail) := SplitOnce(cursor).value; DOT !in head && cursor == head + [DOT] + tail
  {
    if cursor != [] && cursor[0] != DOT {
      assert cursor == [cursor[0]] + cursor[1..];
      SplitOnceFinds(cursor[1..]);
    }
  }

  function PayloadFor(ring: Keyring, pos: Position, now: int): Payload {
    Payload(CURSOR_VERSION, ring.current.id, CursorExpiry(now), pos.resource, pos.after, pos.filterHash)
  }

  function EncodeCursor(codec: Codec, ring: Keyring, pos: Position, now: int): Bytes {
    var encoded := codec.encode(PayloadFor(ring, pos, now));
    encoded + [DOT] + codec.mac(ring.current.secret, encoded)
  }

  function DecodeCursor(codec: Codec, ring: Keyring, cursor: Bytes, resource: string, filterHash: string, now: int)
    : Result<string, CursorError>
  {
    if |cursor| > MAX_CURSOR_BYTES then Err(TooLarge)
    else
      match SplitOnce(cursor)
      case None => Err(Malformed)
      case Some((encoded, signature)) =>
        match codec.decode(encoded)
        case None => Err(InvalidPayload)
        case Some(p) =>
          match ring.Find(p.keyId)
          case None => Err(InvalidSignature)
          case Some(key) =>
            if !ConstantTimeEq(signature, codec.mac(key.secret, encoded)) then Err(InvalidSignature)
            else if p.version != CURSOR_VERSION || p.expiresAt <= now || p.resource != resource
                 || p.filterHash != filterHash || p.after == "" || |p.after| > MAX_AFTER_BYTES
            then Err(Mismatch)
            else Ok(p.after)
  }

  /** A key is found by its id in the ring, the current one first. */
  lemma FindsById(ring: Keyring, id: string)
    ensures match ring.Find(id) {
              case Some(key) =>
                key.id == id && (key == ring.current || (ring.previous == Some(key) && ring.current.id != id))
              case None => ring.current.id != id && (ring.previous.Some? ==> ring.previous.value.id != id)
            }
  {}

  /** Whatever is honoured was signed with a key of the ring: it is a payload of the present version,
      for this resource and these filters, that has not expired, and the MAC of that key. */
  lemma HonouredIsSigned(codec: Codec, ring: Keyring, cursor: Bytes, resource: string, filterHash: string, now: int)
    returns (encoded: Bytes, key: Key, p: Payload)
    requires DecodeCursor(codec, ring, cursor, resource, filterHash, now).Ok?
    ensures cursor == encoded + [46] + codec.mac(key.secret, encoded) && 46 !in encoded && |cursor| <= 2_048
    ensures (key == ring.current || ring.previous == Some(key)) && p.keyId == key.id
    ensures codec.decode(encoded) == Some(p) && p.version == 2 && now < p.expiresAt && 0 < |p.after| <= 256
    ensures DecodeCursor(codec, ring, cursor, resource, filterHash, now) == Ok(p.after)
    ensures p.resource == resource && p.filterHash == filterHash
  {
    SplitOnceFinds(cursor);
    var (head, tail) := SplitOnce(cursor).value;
    encoded, p := head, codec.decode(head).value;
    FindsById(ring, p.keyId);
    key := ring.Find(p.keyId).value;
    ConstantTimeEqDecides(tail, codec.mac(key.secret, encoded));
  }

  /** Which cursors are refused before they are read. */
  lemma UnreadIff(codec: Codec, ring: Keyring, cursor: Bytes, resource: string, filterHash: string, now: int)
    ensures var r := DecodeCursor(codec, ring, cursor, resource, filterHash, now);
            && (r == Err(TooLarge) <==> |cursor| > 2_048)
            && (r == Err(Malformed) <==> |cursor| <= 2_048 && 46 !in cursor)
  {
    SplitOnceFinds(cursor);
  }

  /** When an issued cursor is honoured: exactly when it fits, the key that signed it can still
      be found, it has not expired, and it is used for its own resource and filters. */
  lemma RoundTrip(codec: Codec, ring: Keyring, ring': Keyring, pos: Position, now: int,
                  resource: string, filterHash: string, now': int)
    requires codec.Faithful()
    ensures
      var cursor, encoded := EncodeCursor(codec, ring, pos, now), codec.encode(PayloadFor(ring, pos, now));
      var found := ring'.Find(ring.current.id);
      DecodeCursor(codec, ring', cursor, resource, filterHash, now') == Ok(pos.after) <==>
        && |cursor| <= 2_048
        && found.Some? && codec.mac(found.value.secret, encoded) == codec.mac(ring.current.secret, encoded)
        && CursorExpiry(now) > now'
        && pos.resource == resource && pos.filterHash == filterHash
        && 0 < |pos.after| <= 256
    ensures DecodeCursor(codec, ring', EncodeCursor(codec, ring, pos, now), resource, filterHash, now').Ok? ==>
      DecodeCursor(codec, ring', EncodeCursor(codec, ring, pos, now), resource, filterHash, now') == Ok(pos.after)
  {
    var encoded := codec.encode(PayloadFor(ring, pos, now));
    var signature := codec.mac(ring.current.secret, encoded);
    SplitOnceAtDot(encoded, signature);
    var found := ring'.Find(ring.current.id);
    if found.Some? { ConstantTimeEqDecides(signature, codec.mac(found.value.secret, encoded)); }
  }

  /** A cursor issued before a rotation is honoured for as long as the new key ring keeps the
      old current key as its previous one. */
  lemma SurvivesRotation(codec: Codec, ring: Keyring, ring': Keyring, pos: Position, now: int, now': int)
    requires codec.Faithful() && ring'.Valid()
    requires ring'.current == ring.current || ring'.previous == Some(ring.current)
    requires |EncodeCursor(codec, ring, pos, now)| <= 2_048 && 0 < |pos.after| <= 256
    requires I64_MIN <= now && now <= I64_MAX - 2 * 86_400 && now' <= now + 86_400
    ensures DecodeCursor(codec, ring', EncodeCursor(codec, ring, pos, now), pos.resource, pos.filterHash, now')
         == Ok(pos.after)
  {
    ExpiryWindow(now);
    RoundTrip(codec, ring, ring', pos, now, pos.resource, pos.filterHash, now');
  }
}
