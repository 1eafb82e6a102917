/**
  The hash chain of one origin and the stateless verifier of a federation
  bundle (src/federation.rs).

  Cryptography is symbolic.  A digest is the term that was hashed, so hashing
  is injective and never yields the zero hash; a signature is the key together
  with what it signed.  Texts are kept apart from the bytes they decode to,
  because the source decodes hexadecimal in any letter case but compares hashes
  as texts.
*/
module Chain {
  import opened Common

  const PROTOCOL_VERSION := "commonwake/0.1"
  const MAX_FEDERATION_EVENTS := 500
  const MAX_CANONICAL_OBJECT_BYTES := 64 * 1024
  const WITNESS_KIND := "checkpoint_witnessed"

  datatype PublicKey = Ed25519(id: nat) | BadKey(text: nat)

  /** `NodeIdOf` is the `cwnode_` identifier derived from a key. */
  datatype NodeId = NodeIdOf(key: PublicKey) | OtherId(text: nat)

  /**
    What an event hash commits to besides its predecessor.  `metadata` stands
    for the lineage, delegation and the two timestamps.  The sequence number is
    not part of it.
  */
  datatype Record = Record(kind: string, metadata: string, canonical: string)

  /** `Unlinked` digests are 32-byte values that are nobody's hash. */
  datatype Digest = Zero | Link(previous: Digest, record: Record) | Unlinked(id: nat)

  /** Spelling 0 is the lower-case one that `hex::encode` writes. */
  datatype HashText = Hex(digest: Digest, spelling: nat) | NotHex(text: nat)

  datatype EventId = EventIdOf(canonical: string) | OtherEventId(text: nat)

  datatype Signature =
    | OnDigest(key: PublicKey, digest: Digest)
    | OnCheckpoint(key: PublicKey, nodeId: NodeId, nodeKey: PublicKey, cursor: int, eventHash: HashText, createdAt: int)
    | NotASignature(text: nat)

  datatype OriginEvent = OriginEvent(
    sequence: int, eventId: EventId, record: Record,
    previousHash: HashText, eventHash: HashText, nodeSignature: Signature)

  datatype Checkpoint = Checkpoint(
    nodeId: NodeId, publicKey: PublicKey, cursor: int, eventHash: HashText,
    createdAt: int, signature: Signature)

  datatype Bundle = Bundle(
    protocol: string, originId: NodeId, originKey: PublicKey,
    fromCursor: int, throughCursor: int, events: seq<OriginEvent>, checkpoint: Checkpoint)

  function Encode(d: Digest): HashText { Hex(d, 0) }

  function Decode(t: HashText): Option<Digest>
  {
    match t
    case Hex(d, _) => Some(d)
    case NotHex(_) => None
  }

  const ZERO_HASH := Encode(Zero)

  // ---------------------------------------------------------------- chains

  /** The hash of a whole log that starts at the zero hash. */
  function HashOf(rs: seq<Record>): Digest
  {
    if rs == [] then Zero else Link(HashOf(rs[..|rs| - 1]), rs[|rs| - 1])
  }

  /** The hash reached from `d` by appending `rs`. */
  function Extend(d: Digest, rs: seq<Record>): Digest
  {
    if rs == [] then d else Link(Extend(d, rs[..|rs| - 1]), rs[|rs| - 1])
  }

  lemma {:induction false} HashInjective(a: seq<Record>, b: seq<Record>)
    requires HashOf(a) == HashOf(b)
    ensures a == b
  {
    if a != [] && b != [] {
      HashInjective(a[..|a| - 1], b[..|b| - 1]);
      assert a == a[..|a| - 1] + [a[|a| - 1]];
    }
  }

  lemma {:induction false} ExtendHash(a: seq<Record>, rs: seq<Record>)
    ensures Extend(HashOf(a), rs) == HashOf(a + rs)
  {
    if rs == [] {
      assert a + rs == a;
    } else {
      ExtendHash(a, rs[..|rs| - 1]);
      assert (a + rs)[..|a + rs| - 1] == a + rs[..|rs| - 1];
    }
  }

  /** A hash pins the records behind it and the digest they started from. */
  lemma {:induction false} ExtendPinsLog(d: Digest, rs: seq<Record>, g: seq<Record>)
    requires |rs| <= |g|
    requires Extend(d, rs) == HashOf(g)
    ensures d == HashOf(g[..|g| - |rs|])
    ensures rs == g[|g| - |rs|..]
  {
    if rs == [] {
      assert g[..|g|] == g;
    } else {
      var g' := g[..|g| - 1];
      ExtendPinsLog(d, rs[..|rs| - 1], g');
      assert g'[..|g'| - (|rs| - 1)] == g[..|g| - |rs|];
      assert rs == rs[..|rs| - 1] + [rs[|rs| - 1]];
      assert g[|g| - |rs|..] == g'[|g'| - (|rs| - 1)..] + [g[|g| - 1]];
    }
  }

  function Records(es: seq<OriginEvent>): (rs: seq<Record>)
    ensures |rs| == |es|
    ensures forall i :: 0 <= i < |es| ==> rs[i] == es[i].record
  {
    seq(|es|, i requires 0 <= i < |es| => es[i].record)
  }

  // -------------------------------------------------------- an origin's log

  /** The `i`-th event an origin with this key writes when its log holds `rs`. */
  function SealedEvent(key: PublicKey, rs: seq<Record>, i: nat): OriginEvent
    requires i < |rs|
  {
    var hash := HashOf(rs[..i + 1]);
    OriginEvent(i + 1, EventIdOf(rs[i].canonical), rs[i], Encode(HashOf(rs[..i])), Encode(hash), OnDigest(key, hash))
  }

  /** Event `i` is the one an origin with this key writes after the events before it. */
  predicate Chained(key: PublicKey, es: seq<OriginEvent>, i: nat)
    requires i < |es|
  {
    es[i] == SealedEvent(key, Records(es), i)
  }

  predicate SealedAt(key: PublicKey, es: seq<OriginEvent>, i: nat)
    requires i < |es|
  {
    && Chained(key, es, i)
    && |es[i].record.canonical| <= MAX_CANONICAL_OBJECT_BYTES
  }

  /** A stored log: contiguous, chained from the zero hash, and signed. */
  ghost predicate IsLog(key: PublicKey, es: seq<OriginEvent>)
  {
    forall i :: 0 <= i < |es| ==> SealedAt(key, es, i)
  }

  /** The columns of a stored row that no hash covers, though the canonical object determines them. */
  datatype Columns = Columns(
    targets: seq<string>, supersedes: seq<string>, payload: string, authorSignature: Option<string>,
    authorNonce: Option<string>)

  /** A row of the `events` table. */
  datatype Row = Row(event: OriginEvent, columns: Columns)

  function Events(rows: seq<Row>): (es: seq<OriginEvent>)
    ensures |es| == |rows|
    ensures forall i :: 0 <= i < |rows| ==> es[i] == rows[i].event
  {
    seq(|rows|, i requires 0 <= i < |rows| => rows[i].event)
  }

  /**
    Row `i` is the one its origin would have written.  `expected` is
    `expected_projection`, which reads the columns off the authenticated record,
    or fails on a record that is not what its kind says.
  */
  predicate RowOk(key: PublicKey, expected: Record -> Option<Columns>, rows: seq<Row>, i: nat)
    requires i < |rows|
  {
    Chained(key, Events(rows), i) && expected(rows[i].event.record) == Some(rows[i].columns)
  }

  ghost predicate TableOk(key: PublicKey, expected: Record -> Option<Columns>, rows: seq<Row>)
  {
    forall i :: 0 <= i < |rows| ==> RowOk(key, expected, rows, i)
  }

  predicate Written(key: PublicKey, expected: Record -> Option<Columns>, row: Row, sequence: int, previous: Digest)
  {
    var rec, hash := row.event.record, Link(previous, row.event.record);
    && row.event == OriginEvent(sequence, EventIdOf(rec.canonical), rec, Encode(previous), Encode(hash),
      OnDigest(key, hash))
    && expected(rec) == Some(row.columns)
  }

  /** The digest of the first `n` rows. */
  ghost predicate Reached(rows: seq<Row>, n: nat, digest: Digest)
    requires n <= |rows|
  {
    digest == HashOf(Records(Events(rows))[..n])
  }

  /** The checks `verify_log` makes of one row, in order. */
  method CheckRow(key: PublicKey, expected: Record -> Option<Columns>, row: Row, sequence: int, previous: Digest)
    returns (r: Result<Digest, Error>)
    ensures r.Ok? <==> Written(key, expected, row, sequence, previous)
    ensures r.Ok? ==> r.value == Link(previous, row.event.record)
  {
    var e := row.event;
    if e.sequence != sequence { return Err(Unauthorized); }
    if e.previousHash != Encode(previous) { return Err(Unauthorized); }
    var hash := Link(previous, e.record);
    if e.eventHash != Encode(hash) { return Err(Unauthorized); }
    if e.nodeSignature != OnDigest(key, hash) { return Err(Unauthorized); }
    if e.eventId != EventIdOf(e.record.canonical) { return Err(Unauthorized); }
    if expected(e.record) != Some(row.columns) { return Err(Unauthorized); }
    return Ok(hash);
  }

  /** What one row must hold, given the digest of the rows before it. */
  lemma {:induction false} RowStep(
    key: PublicKey, expected: Record -> Option<Columns>, rows: seq<Row>, n: nat, previous: Digest)
    requires n < |rows| && Reached(rows, n, previous)
    ensures Reached(rows, n + 1, Link(previous, rows[n].event.record))
    ensures RowOk(key, expected, rows, n) <==> Written(key, expected, rows[n], n + 1, previous)
  {
    var rs := Records(Events(rows));
    assert rs[..n + 1][..n] == rs[..n];
  }

  /**
    `verify_log`: one pass over the stored rows that carries the expected
    previous digest.  It accepts exactly the rows an origin with this key
    writes, and reports their number and head hash.
  */
  method VerifyLog(
    key: PublicKey, expected: Record -> Option<Columns>, rows: seq<Row>)
    returns (r: Result<(int, HashText), Error>)
    ensures r.Ok? <==> TableOk(key, expected, rows)
    ensures r.Ok? ==> r.value == (|rows|, HashTextAt(Events(rows), |rows|))
  {
    var previous := Zero;
    var cursor := 0;
    var head := ZERO_HASH;
    for n := 0 to |rows|
      invariant cursor == n
      invariant Reached(rows, n, previous)
      invariant head == HashTextAt(Events(rows), n)
      invariant forall i :: 0 <= i < n ==> RowOk(key, expected, rows, i)
    {
      var row := rows[n].event;
      RowStep(key, expected, rows, n, previous);
      var checked := CheckRow(key, expected, rows[n], n + 1, previous);
      if checked.Err? { return Err(checked.error); }
      previous, cursor, head := checked.value, row.sequence, row.eventHash;
    }
    return Ok((cursor, head));
  }

  /** The head hash after the first `n` events, as `event_hash_at` reads it. */
  function HashTextAt(es: seq<OriginEvent>, n: nat): HashText
    requires n <= |es|
  {
    if n == 0 then ZERO_HASH else es[n - 1].eventHash
  }

  lemma {:induction false} LogHash(key: PublicKey, es: seq<OriginEvent>, n: nat)
    requires IsLog(key, es) && n <= |es|
    ensures HashTextAt(es, n) == Encode(HashOf(Records(es)[..n]))
  {
    if n > 0 {
      assert SealedAt(key, es, n - 1);
    }
  }

  lemma {:induction false} LogExtension(key: PublicKey, es: seq<OriginEvent>, e: OriginEvent)
    requires IsLog(key, es)
    requires |e.record.canonical| <= MAX_CANONICAL_OBJECT_BYTES
    requires e == SealedEvent(key, Records(es) + [e.record], |es|)
    ensures IsLog(key, es + [e])
  {
    var es' := es + [e];
    var rs := Records(es);
    assert Records(es') == rs + [e.record];
    forall i | 0 <= i < |es'|
      ensures SealedAt(key, es', i)
    {
      if i < |es| {
        assert SealedAt(key, es, i);
        assert (rs + [e.record])[..i + 1] == rs[..i + 1];
        assert (rs + [e.record])[..i] == rs[..i];
      }
    }
  }

  /** Two logs of one origin with the same length and head hash are the same log. */
  lemma {:induction false} HeadPinsLog(key: PublicKey, a: seq<OriginEvent>, b: seq<OriginEvent>, n: nat)
    requires IsLog(key, a) && IsLog(key, b)
    requires n <= |a| && n <= |b|
    requires HashTextAt(a, n) == HashTextAt(b, n)
    ensures a[..n] == b[..n]
  {
    LogHash(key, a, n);
    LogHash(key, b, n);
    var ra, rb := Records(a), Records(b);
    HashInjective(ra[..n], rb[..n]);
    forall i | 0 <= i < n
      ensures a[i] == b[i]
    {
      assert SealedAt(key, a, i) && SealedAt(key, b, i);
      assert ra[..n][..i + 1] == ra[..i + 1] && rb[..n][..i + 1] == rb[..i + 1];
      assert ra[..n][..i] == ra[..i] && rb[..n][..i] == rb[..i];
      assert ra[..n][i] == rb[..n][i];
    }
  }

  lemma {:induction false} TableHash(key: PublicKey, expected: Record -> Option<Columns>, rows: seq<Row>)
    requires TableOk(key, expected, rows)
    ensures HashTextAt(Events(rows), |rows|) == Encode(HashOf(Records(Events(rows))))
  {
    var rs := Records(Events(rows));
    assert rs[..|rows|] == rs;
    if rows != [] {
      assert RowOk(key, expected, rows, |rows| - 1);
    }
  }

  /**
    Two tables that both verify with the same head are equal row for row: no
    column, hashed or not, can be altered without moving the reported head.
  */
  lemma {:induction false} HeadPinsTable(key: PublicKey, expected: Record -> Option<Columns>, a: seq<Row>, b: seq<Row>)
    requires TableOk(key, expected, a) && TableOk(key, expected, b)
    requires HashTextAt(Events(a), |a|) == HashTextAt(Events(b), |b|)
    ensures a == b
  {
    TableHash(key, expected, a);
    TableHash(key, expected, b);
    HashInjective(Records(Events(a)), Records(Events(b)));
    forall i | 0 <= i < |a|
      ensures a[i] == b[i]
    {
      SameRow(key, expected, a, b, i);
    }
  }

  lemma {:induction false} SameRow(
    key: PublicKey, expected: Record -> Option<Columns>, a: seq<Row>, b: seq<Row>, i: nat)
    requires i < |a| && i < |b| && RowOk(key, expected, a, i) && RowOk(key, expected, b, i)
    requires Records(Events(a)) == Records(Events(b))
    ensures a[i] == b[i]
  {
    assert Records(Events(a))[i] == a[i].event.record && Records(Events(b))[i] == b[i].event.record;
  }

  // ---------------------------------------------------------- verification

  predicate ValidCheckpoint(c: Checkpoint)
  {
    && c.publicKey.Ed25519?
    && c.nodeId == NodeIdOf(c.publicKey)
    && c.signature == OnCheckpoint(c.publicKey, c.nodeId, c.publicKey, c.cursor, c.eventHash, c.createdAt)
  }

  /** A verified checkpoint says what was signed, and nothing else: its signature determines it. */
  lemma {:induction false} SignaturePinsCheckpoint(c: Checkpoint, d: Checkpoint)
    requires ValidCheckpoint(c) && ValidCheckpoint(d) && c.signature == d.signature
    ensures c == d
  {
  }

  /** Everything one event of a bundle must satisfy on its own. */
  predicate ValidEvent(key: PublicKey, e: OriginEvent, sequence: int)
  {
    && |e.record.canonical| <= MAX_CANONICAL_OBJECT_BYTES
    && e.sequence == sequence
    && e.previousHash.Hex?
    && e.eventHash == Encode(Link(e.previousHash.digest, e.record))
    && e.eventId == EventIdOf(e.record.canonical)
    && e.nodeSignature == OnDigest(key, Link(e.previousHash.digest, e.record))
  }

  predicate ValidAt(key: PublicKey, from: int, es: seq<OriginEvent>, i: int)
    requires 0 <= i < |es|
  {
    ValidEvent(key, es[i], from + i + 1)
  }

  predicate LinkedAt(es: seq<OriginEvent>, i: int)
    requires 0 < i < |es|
  {
    es[i].previousHash == es[i - 1].eventHash
  }

  predicate ValidEvents(key: PublicKey, from: int, es: seq<OriginEvent>)
  {
    && (forall i :: 0 <= i < |es| ==> ValidAt(key, from, es, i))
    && (forall i :: 0 < i < |es| ==> LinkedAt(es, i))
    && (from == 0 && es != [] ==> es[0].previousHash == ZERO_HASH)
  }

  /** Everything `verify_bundle` asks of a bundle apart from what it asks of each event. */
  predicate ValidHeader(b: Bundle)
  {
    && b.protocol == PROTOCOL_VERSION
    && 0 <= b.fromCursor <= b.throughCursor
    && |b.events| <= MAX_FEDERATION_EVENTS
    && b.originKey.Ed25519?
    && b.originId == NodeIdOf(b.originKey)
    && ValidCheckpoint(b.checkpoint)
    && b.checkpoint.nodeId == b.originId
    && b.checkpoint.publicKey == b.originKey
    && b.checkpoint.cursor == b.throughCursor
    && |b.events| == b.throughCursor - b.fromCursor
    && (b.events != [] ==> b.checkpoint.eventHash == b.events[|b.events| - 1].eventHash)
    && (b.throughCursor == 0 ==> b.checkpoint.eventHash == ZERO_HASH)
  }

  predicate ValidBundle(b: Bundle)
  {
    ValidHeader(b) && ValidEvents(b.originKey, b.fromCursor, b.events)
  }

  /** `verify_bundle`: one pass that carries only the preceding event's hash. */
  method VerifyBundle(b: Bundle) returns (r: Result<(), Error>)
    ensures r.Ok? <==> ValidBundle(b)
    ensures r.Err? ==> r.error in {Validation, Unauthorized}
  {
    if b.protocol != PROTOCOL_VERSION { return Err(Validation); }
    if b.fromCursor < 0 || b.throughCursor < b.fromCursor { return Err(Validation); }
    if |b.events| > MAX_FEDERATION_EVENTS { return Err(Validation); }
    if b.originKey.BadKey? { return Err(Validation); }
    if NodeIdOf(b.originKey) != b.originId { return Err(Unauthorized); }
    if !ValidCheckpoint(b.checkpoint) { return Err(Unauthorized); }
    if b.checkpoint.nodeId != b.originId
       || b.checkpoint.publicKey != b.originKey
       || b.checkpoint.cursor != b.throughCursor {
      return Err(Unauthorized);
    }
    if |b.events| != b.throughCursor - b.fromCursor { return Err(Validation); }

    var previousHash: Option<HashText> := None;
    for offset := 0 to |b.events|
      invariant previousHash == if offset == 0 then None else Some(b.events[offset - 1].eventHash)
      invariant forall i :: 0 <= i < offset ==> ValidAt(b.originKey, b.fromCursor, b.events, i)
      invariant forall i :: 0 < i < offset ==> LinkedAt(b.events, i)
      invariant b.fromCursor == 0 && offset > 0 ==> b.events[0].previousHash == ZERO_HASH
    {
      var event := b.events[offset];
      assert offset > 0 && ValidEvents(b.originKey, b.fromCursor, b.events) ==> LinkedAt(b.events, offset);
      assert ValidEvents(b.originKey, b.fromCursor, b.events) ==> ValidAt(b.originKey, b.fromCursor, b.events, offset);
      if |event.record.canonical| > MAX_CANONICAL_OBJECT_BYTES { return Err(Validation); }
      if event.sequence != b.fromCursor + offset + 1 { return Err(Validation); }
      if previousHash.Some? {
        if event.previousHash != previousHash.value { return Err(Unauthorized); }
      } else if b.fromCursor == 0 && event.previousHash != ZERO_HASH {
        return Err(Unauthorized);
      }
      var previous := Decode(event.previousHash);
      if previous.None? { return Err(Validation); }
      var expectedHash := Link(previous.value, event.record);
      if event.eventHash != Encode(expectedHash) { return Err(Unauthorized); }
      if event.eventId != EventIdOf(event.record.canonical) { return Err(Unauthorized); }
      if event.nodeSignature != OnDigest(b.originKey, expectedHash) { return Err(Unauthorized); }
      previousHash := Some(event.eventHash);
    }
    if b.events != [] && b.checkpoint.eventHash != b.events[|b.events| - 1].eventHash {
      return Err(Unauthorized);
    }
    if b.throughCursor == 0 && b.checkpoint.eventHash != ZERO_HASH { return Err(Unauthorized); }
    return Ok(());
  }

  /** The events of a verified bundle hash to the fold of their records. */
  lemma {:induction false} ValidEventsHash(key: PublicKey, from: int, es: seq<OriginEvent>, n: nat)
    requires ValidEvents(key, from, es)
    requires 0 < n <= |es|
    ensures es[0].previousHash.Hex?
    ensures es[n - 1].eventHash == Encode(Extend(es[0].previousHash.digest, Records(es)[..n]))
  {
    assert ValidAt(key, from, es, 0) && ValidAt(key, from, es, n - 1);
    var rs := Records(es);
    assert rs[..n][..n - 1] == rs[..n - 1];
    if n == 1 {
      assert Extend(es[0].previousHash.digest, rs[..1]) == Link(Extend(es[0].previousHash.digest, rs[..0]), rs[0]);
    } else {
      ValidEventsHash(key, from, es, n - 1);
      assert LinkedAt(es, n - 1);
    }
  }

  /** The only freedom a verified bundle has: how its first event spells its predecessor's hash. */
  predicate WellSpelled(b: Bundle)
  {
    b.events != [] ==> b.events[0].previousHash.Hex? && b.events[0].previousHash.spelling == 0
  }

  /**
    A genesis chain through the end of the bundle: the bundle's records are its
    tail and its head is the bundle's checkpoint.
  */
  ghost predicate CutFrom(b: Bundle, g: seq<Record>)
  {
    && 0 <= b.fromCursor <= b.throughCursor == |g|
    && Records(b.events) == g[b.fromCursor..]
    && (b.events != [] ==> Decode(b.events[0].previousHash) == Some(HashOf(g[..b.fromCursor])))
    && (b.events == [] ==> b.checkpoint.eventHash == Encode(HashOf(g)))
  }

  /** The event hashes of a bundle are those of the genesis chain it is cut from. */
  lemma {:induction false} CutHash(b: Bundle, g: seq<Record>, n: nat)
    requires ValidEvents(b.originKey, b.fromCursor, b.events) && CutFrom(b, g)
    requires 0 < n <= |b.events|
    ensures b.events[n - 1].eventHash == Encode(HashOf(g[..b.fromCursor + n]))
  {
    ValidEventsHash(b.originKey, b.fromCursor, b.events, n);
    ExtendHash(g[..b.fromCursor], Records(b.events)[..n]);
    assert g[..b.fromCursor] + Records(b.events)[..n] == g[..b.fromCursor + n];
  }

  /** A checkpoint that states the head of some prefix of the log. */
  predicate Genuine(c: Checkpoint, log: seq<OriginEvent>)
  {
    0 <= c.cursor <= |log| && c.eventHash == HashTextAt(log, c.cursor)
  }

  /**
    A checkpoint of a log pins the whole bundle below it: whoever assembled the
    bundle, it is cut from that log.
  */
  lemma {:induction false} GenuineBundleIsCut(b: Bundle, log: seq<OriginEvent>)
    requires ValidBundle(b) && IsLog(b.originKey, log)
    requires Genuine(b.checkpoint, log)
    ensures CutFrom(b, Records(log)[..b.throughCursor])
  {
    var g := Records(log)[..b.throughCursor];
    LogHash(b.originKey, log, b.throughCursor);
    if b.events != [] {
      TailOf(b.originKey, b.fromCursor, b.events, g);
    }
  }

  /** Verified events that end in the hash of a log are its last ones. */
  lemma {:induction false} TailOf(key: PublicKey, from: int, es: seq<OriginEvent>, g: seq<Record>)
    requires ValidEvents(key, from, es) && 0 < |es| <= |g|
    requires es[|es| - 1].eventHash == Encode(HashOf(g))
    ensures Decode(es[0].previousHash) == Some(HashOf(g[..|g| - |es|]))
    ensures Records(es) == g[|g| - |es|..]
  {
    var rs := Records(es);
    assert rs[..|es|] == rs;
    ValidEventsHash(key, from, es, |es|);
    var d := es[0].previousHash.digest;
    assert Extend(d, rs) == HashOf(g);
    ExtendPinsLog(d, rs, g);
  }

  lemma {:induction false} CutPrevious(b: Bundle, g: seq<Record>, i: nat)
    requires ValidEvents(b.originKey, b.fromCursor, b.events) && CutFrom(b, g)
    requires i < |b.events| && (0 < i || WellSpelled(b))
    ensures b.events[i].previousHash == Encode(HashOf(g[..b.fromCursor + i]))
  {
    if i > 0 {
      CutHash(b, g, i);
      assert LinkedAt(b.events, i);
    }
  }

  /** Every event of a bundle cut from a log is that log's event, up to the spelling of the first predecessor hash. */
  lemma {:induction false} CutEvents(b: Bundle, log: seq<OriginEvent>, i: nat)
    requires ValidEvents(b.originKey, b.fromCursor, b.events) && IsLog(b.originKey, log)
    requires 0 <= b.throughCursor <= |log| && CutFrom(b, Records(log)[..b.throughCursor])
    requires i < |b.events|
    requires 0 < i || WellSpelled(b)
    ensures b.events[i] == log[b.fromCursor + i]
  {
    var g := Records(log)[..b.throughCursor];
    var k := b.fromCursor + i;
    assert ValidAt(b.originKey, b.fromCursor, b.events, i);
    CutPrevious(b, g, i);
    assert g[..k] == Records(log)[..k];
    assert b.events[i].record == g[b.fromCursor..][i] == log[k].record;
    ValidMeansSealed(b.originKey, log, k, b.events[i]);
  }

  /** An event that verifies in place, on the same predecessor and with the same record, is the stored one. */
  lemma {:induction false} ValidMeansSealed(key: PublicKey, log: seq<OriginEvent>, k: nat, e: OriginEvent)
    requires IsLog(key, log) && k < |log|
    requires ValidEvent(key, e, k + 1) && e.record == log[k].record
    requires e.previousHash == Encode(HashOf(Records(log)[..k]))
    ensures e == log[k]
  {
    assert SealedAt(key, log, k);
    assert Records(log)[..k + 1][..k] == Records(log)[..k];
  }
}
