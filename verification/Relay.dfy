/**
  Serving bundles: an origin from its own log (src/federation.rs) and a relay
  from the logs it retains, with only the checkpoints it happened to import
  (src/db.rs).
*/
module Relay {
  import opened Common
  import opened Chain
  import opened Replica

  function SignCheckpoint(key: PublicKey, cursor: int, eventHash: HashText, createdAt: int): Checkpoint
  {
    Checkpoint(NodeIdOf(key), key, cursor, eventHash, createdAt,
      OnCheckpoint(key, NodeIdOf(key), key, cursor, eventHash, createdAt))
  }

  /** `federation_bundle`: the next events of the node's own log under a new checkpoint. */
  function FederationBundle(db: Db, after: int, limit: nat, createdAt: int): Result<Bundle, Error>
  {
    if after < 0 || after > |db.log| then Err(Validation)
    else
      var through := Min(after + Clamp(limit, 1, MAX_FEDERATION_EVENTS), |db.log|);
      Ok(Bundle(PROTOCOL_VERSION, NodeIdOf(db.key), db.key, after, through, db.log[after..through],
        SignCheckpoint(db.key, through, HashTextAt(db.log, through), createdAt)))
  }

  /** `SELECT MAX(cursor) … WHERE cursor > after AND cursor <= end`. */
  function MaxCursor(rows: seq<Checkpoint>, after: int, end: int): (m: Option<int>)
    ensures m.Some? ==> after < m.value <= end && exists i :: 0 <= i < |rows| && rows[i].cursor == m.value
    ensures forall i :: 0 <= i < |rows| && after < rows[i].cursor <= end ==> m.Some? && rows[i].cursor <= m.value
  {
    if rows == [] then None
    else
      var c := rows[|rows| - 1].cursor;
      var rest := MaxCursor(rows[..|rows| - 1], after, end);
      if after < c <= end && (rest.None? || rest.value < c) then Some(c) else rest
  }

  /** `SELECT MIN(cursor) … WHERE cursor > after`. */
  function MinCursor(rows: seq<Checkpoint>, after: int): (m: Option<int>)
    ensures m.Some? ==> after < m.value && exists i :: 0 <= i < |rows| && rows[i].cursor == m.value
    ensures forall i :: 0 <= i < |rows| && after < rows[i].cursor ==> m.Some? && m.value <= rows[i].cursor
  {
    if rows == [] then None
    else
      var c := rows[|rows| - 1].cursor;
      var rest := MinCursor(rows[..|rows| - 1], after);
      if after < c && (rest.None? || c < rest.value) then Some(c) else rest
  }

  predicate LastAt(rows: seq<Checkpoint>, i: int, c: Checkpoint)
  {
    0 <= i < |rows| && rows[i] == c && forall j :: i < j < |rows| ==> rows[j].cursor != c.cursor
  }

  /** The latest imported checkpoint row at a cursor. */
  function LatestAt(rows: seq<Checkpoint>, cursor: int): (c: Option<Checkpoint>)
    ensures c.Some? ==> c.value.cursor == cursor && c.value in rows && exists i :: LastAt(rows, i, c.value)
    ensures (exists i :: 0 <= i < |rows| && rows[i].cursor == cursor) ==> c.Some?
  {
    if rows == [] then None
    else if rows[|rows| - 1].cursor == cursor then
      assert LastAt(rows, |rows| - 1, rows[|rows| - 1]);
      Some(rows[|rows| - 1])
    else
      var front := rows[..|rows| - 1];
      var c := LatestAt(front, cursor);
      assert c.Some? ==> forall i :: LastAt(front, i, c.value) ==> LastAt(rows, i, c.value);
      c
  }

  /** The largest checkpoint within the requested range, or else the nearest beyond it. */
  function RelayEnd(r: Replica, after: int, limit: nat): Option<int>
  {
    if after == r.cursor then Some(r.cursor)
    else
      var requestedEnd := Min(after + Clamp(limit, 1, MAX_FEDERATION_EVENTS), r.cursor);
      var within := MaxCursor(r.checkpoints, after, requestedEnd);
      if within.Some? then within else MinCursor(r.checkpoints, after)
  }

  /** `relayed_federation_bundle`; it re-verifies what it built before serving it. */
  function RelayedBundle(db: Db, origin: NodeId, after: int, limit: nat): Result<Bundle, Error>
  {
    if after < 0 then Err(Validation)
    else if origin !in db.replicas then Err(NotFound)
    else
      var r := db.replicas[origin];
      if after > r.cursor then Err(Validation)
      else
        var through := RelayEnd(r, after, limit);
        if through.None? then Err(Internal)
        else
          var checkpoint := LatestAt(r.checkpoints, through.value);
          if checkpoint.None? then Err(Internal)
          else
            var end := Min(through.value, |r.events|);
            var events := if after <= end then r.events[after..end] else [];
            var b := Bundle(PROTOCOL_VERSION, origin, r.publicKey, after, through.value, events, checkpoint.value);
            if ValidBundle(b) then Ok(b) else Err(Validation)
  }

  /** The same event, its predecessor's hash spelled in some way. */
  predicate SameUpToSpelling(e: OriginEvent, stored: OriginEvent)
  {
    && e == stored.(previousHash := e.previousHash)
    && e.previousHash.Hex? && stored.previousHash.Hex? && e.previousHash.digest == stored.previousHash.digest
  }

  /** A stretch of the log in which only the first predecessor hash may be respelled, and not at the genesis. */
  predicate IsStretch(log: seq<OriginEvent>, from: int, es: seq<OriginEvent>)
  {
    && 0 <= from <= from + |es| <= |log|
    && (forall i :: 0 < i < |es| ==> es[i] == log[from + i])
    && (es != [] ==> SameUpToSpelling(es[0], log[from]) && (from == 0 ==> es[0] == log[0]))
  }

  /** The whole envelope of a bundle, written out. */
  predicate Sealed(b: Bundle, key: PublicKey)
  {
    var c := b.checkpoint;
    && b.protocol == "commonwake/0.1"
    && b.originKey == key && b.originId == NodeIdOf(key) && c.publicKey == key && c.nodeId == NodeIdOf(key)
    && c.signature == OnCheckpoint(key, NodeIdOf(key), key, b.throughCursor, c.eventHash, c.createdAt)
    && c.cursor == b.throughCursor == b.fromCursor + |b.events| && |b.events| <= 500
  }

  lemma {:induction false} StretchIsValid(key: PublicKey, log: seq<OriginEvent>, from: int, es: seq<OriginEvent>)
    requires IsLog(key, log) && IsStretch(log, from, es)
    ensures ValidEvents(key, from, es)
  {
    var rs := Records(log);
    forall i | 0 <= i < |es|
      ensures ValidAt(key, from, es, i)
      ensures 0 < i ==> LinkedAt(es, i)
    {
      var k := from + i;
      assert SealedAt(key, log, k);
      assert rs[..k + 1][..k] == rs[..k];
      if 0 < i {
        assert SealedAt(key, log, k - 1);
      }
    }
    if from == 0 && es != [] {
      assert SealedAt(key, log, 0);
    }
  }

  lemma {:induction false} FirstOfCut(b: Bundle, log: seq<OriginEvent>)
    requires ValidEvents(b.originKey, b.fromCursor, b.events) && IsLog(b.originKey, log) && b.events != []
    requires 0 <= b.throughCursor <= |log| && CutFrom(b, Records(log)[..b.throughCursor])
    ensures SameUpToSpelling(b.events[0], log[b.fromCursor]) && (b.fromCursor == 0 ==> b.events[0] == log[0])
  {
    var k, e := b.fromCursor, b.events[0];
    assert ValidAt(b.originKey, k, b.events, 0);
    assert SealedAt(b.originKey, log, k);
    assert Records(log)[..b.throughCursor][..k] == Records(log)[..k];
    assert e.record == Records(b.events)[0] == log[k].record;
    assert Records(log)[..k + 1][..k] == Records(log)[..k];
  }

  lemma {:induction false} VerifiedIsStretch(key: PublicKey, log: seq<OriginEvent>, b: Bundle)
    requires IsLog(key, log) && Genuine(b.checkpoint, log) && b.originKey == key && ValidBundle(b)
    ensures IsStretch(log, b.fromCursor, b.events)
  {
    GenuineBundleIsCut(b, log);
    if b.events != [] {
      FirstOfCut(b, log);
    }
    forall i | 0 < i < |b.events|
      ensures b.events[i] == log[b.fromCursor + i]
    {
      CutEvents(b, log, i);
    }
  }

  /**
    Given a checkpoint that states a head of the log, a bundle verifies exactly
    if its envelope is sealed by the origin and its events are a stretch of at
    most 500 of the log's events that ends there.
  */
  lemma {:induction false} VerifiesIffStretch(key: PublicKey, log: seq<OriginEvent>, b: Bundle)
    requires key.Ed25519? && IsLog(key, log) && Genuine(b.checkpoint, log) && b.originKey == key
    ensures ValidBundle(b) <==> Sealed(b, key) && IsStretch(log, b.fromCursor, b.events)
  {
    if ValidBundle(b) {
      VerifiedIsStretch(key, log, b);
    }
    if Sealed(b, key) && IsStretch(log, b.fromCursor, b.events) {
      StretchIsValid(key, log, b.fromCursor, b.events);
    }
  }

  /** Any slice of a stored log under a genuine checkpoint is a bundle that verifies. */
  lemma {:induction false} SliceIsValid(key: PublicKey, log: seq<OriginEvent>, from: nat, through: nat, c: Checkpoint)
    requires key.Ed25519? && IsLog(key, log)
    requires from <= through <= |log| && through - from <= MAX_FEDERATION_EVENTS
    requires ValidCheckpoint(c) && c.publicKey == key && c.cursor == through && Genuine(c, log)
    ensures ValidBundle(Bundle(PROTOCOL_VERSION, NodeIdOf(key), key, from, through, log[from..through], c))
  {
    if from < through {
      assert SealedAt(key, log, from);
    }
    StretchIsValid(key, log, from, log[from..through]);
  }

  /** What a server owes its client: the log's next slice, never stuck below the head. */
  ghost predicate Serves(key: PublicKey, log: seq<OriginEvent>, after: int, b: Bundle)
  {
    && ValidBundle(b)
    && b.originKey == key
    && b.fromCursor == after <= b.throughCursor <= |log|
    && b.events == log[after..b.throughCursor]
    && Genuine(b.checkpoint, log)
    && (b.throughCursor > after || after == |log|)
  }

  /** As many of the log's next events as were asked for, or as there are. */
  lemma {:induction false} OriginServes(db: Db, after: int, limit: nat, createdAt: int)
    requires Inv(db)
    ensures var served := FederationBundle(db, after, limit, createdAt);
      if 0 <= after <= |db.log| then
        served.Ok? && Serves(db.key, db.log, after, served.value) &&
          |served.value.events| == Min(Clamp(limit, 1, 500), |db.log| - after)
      else served == Err(Validation)
  {
    if 0 <= after <= |db.log| {
      var b := FederationBundle(db, after, limit, createdAt).value;
      SliceIsValid(db.key, db.log, after, b.throughCursor, b.checkpoint);
    }
  }

  /** The end of a relayed bundle: on a retained checkpoint, beyond `after`, and at most 500 events away. */
  lemma {:induction false} RelayEndNear(r: Replica, after: int, limit: nat)
    requires r.cursor == |r.events| && CheckpointsOk(r)
    requires 0 <= after <= r.cursor
    ensures var end := RelayEnd(r, after, limit);
      && end.Some? && CheckpointAt(r, end.value)
      && after <= end.value <= Min(r.cursor, after + MAX_FEDERATION_EVENTS)
      && (after < r.cursor ==> after < end.value)
  {
    if after < r.cursor {
      assert CheckpointNear(r, after);
      var i :| 0 <= i < |r.checkpoints| && after < r.checkpoints[i].cursor <= after + MAX_FEDERATION_EVENTS;
      var end := RelayEnd(r, after, limit).value;
      var j :| 0 <= j < |r.checkpoints| && r.checkpoints[j].cursor == end;
      assert CheckpointOk(r, r.checkpoints[j]);
    }
  }

  /** Some retained checkpoint lies in (after, end]. */
  predicate AnyWithin(rows: seq<Checkpoint>, after: int, end: int)
  {
    exists i :: 0 <= i < |rows| && after < rows[i].cursor <= end
  }

  /**
    The end to choose: a retained checkpoint; the last within the limit if there
    is one, and otherwise the first beyond it.
  */
  predicate BestEnd(rows: seq<Checkpoint>, after: int, limit: int, end: int)
  {
    && after < end && (exists i :: 0 <= i < |rows| && rows[i].cursor == end)
    && if AnyWithin(rows, after, after + limit) then end <= after + limit && !AnyWithin(rows, end, after + limit)
       else !AnyWithin(rows, after, end - 1)
  }

  lemma {:induction false} RelayEndIsBest(r: Replica, after: int, limit: nat)
    requires r.cursor == |r.events| && CheckpointsOk(r) && 0 <= after < r.cursor
    ensures var end := RelayEnd(r, after, limit);
      end.Some? && BestEnd(r.checkpoints, after, Clamp(limit, 1, 500), end.value)
  {
    RelayEndNear(r, after, limit);
    var rows, bound := r.checkpoints, after + Clamp(limit, 1, 500);
    forall i | 0 <= i < |rows|
      ensures rows[i].cursor <= r.cursor
    {
      assert CheckpointOk(r, rows[i]);
    }
    var end := RelayEnd(r, after, limit).value;
    if MaxCursor(rows, after, Min(bound, r.cursor)).None? {
      assert !AnyWithin(rows, after, bound);
    }
  }

  /**
    Relay availability.  For every retained origin and every cursor up to its
    head, a relay that kept only the checkpoints it imported can still serve a
    bundle that verifies, holds at most 500 events and moves past the cursor.
    It ends at the last retained checkpoint within the requested limit, or, if
    there is none, at the first one beyond it; the checkpoint is the newest
    imported for that cursor.
  */
  lemma {:induction false} RelayServes(db: Db, origin: NodeId, after: int, limit: nat)
    requires Inv(db)
    ensures var served := RelayedBundle(db, origin, after, limit);
      if after < 0 then served == Err(Validation)
      else if origin !in db.replicas then served == Err(NotFound)
      else if after > |db.replicas[origin].events| then served == Err(Validation)
      else
        && served.Ok?
        && Serves(db.replicas[origin].publicKey, db.replicas[origin].events, after, served.value)
        && |served.value.events| <= 500
        && (after < |db.replicas[origin].events| ==>
          BestEnd(db.replicas[origin].checkpoints, after, Clamp(limit, 1, 500), served.value.throughCursor))
        && exists i :: LastAt(db.replicas[origin].checkpoints, i, served.value.checkpoint)
  {
    if origin in db.replicas && 0 <= after <= |db.replicas[origin].events| {
      var r := db.replicas[origin];
      RelayServesReplica(db, origin, r, after, limit);
      if after < r.cursor {
        RelayEndIsBest(r, after, limit);
      }
    }
  }

  lemma {:induction false} RelayServesReplica(db: Db, origin: NodeId, r: Replica, after: int, limit: nat)
    requires origin in db.replicas && r == db.replicas[origin]
    requires ReplicaOk(origin, r) && CheckpointsOk(r)
    requires 0 <= after <= |r.events|
    ensures var served := RelayedBundle(db, origin, after, limit);
      && served.Ok?
      && Serves(r.publicKey, r.events, after, served.value)
      && |served.value.events| <= 500
      && served.value.throughCursor == RelayEnd(r, after, limit).value
      && Some(served.value.checkpoint) == LatestAt(r.checkpoints, served.value.throughCursor)
  {
    RelayEndNear(r, after, limit);
    var end := RelayEnd(r, after, limit).value;
    var c := LatestAt(r.checkpoints, end).value;
    assert CheckpointOk(r, c) by {
      var i :| 0 <= i < |r.checkpoints| && r.checkpoints[i] == c;
    }
    SliceIsValid(r.publicKey, r.events, after, end, c);
  }

}
