/**
  The import as the program runs it: inside one open transaction that writes the
  peer row, then projects and inserts event after event, and ends in a rollback,
  in a commit, or, on the three equivocation paths, in a commit followed by an
  error.  Whatever the transaction holds at that moment becomes permanent.  The
  main result is that it then holds nothing but the evidence, so that the import
  is the one Replica specifies case by case.
*/
module Transaction {
  import opened Common
  import opened Chain
  import opened Replica
  import opened ImportSafety

  // ------------------------------------------------- what the program executes

  /** What the open transaction holds for the origin: its rows, and the events projected so far. */
  datatype Tx =
    | Running(rows: seq<OriginEvent>, projected: seq<OriginEvent>, cursor: int, hash: HashText)
    | Stopped(rows: seq<OriginEvent>, projected: seq<OriginEvent>, reason: Failure)

  function RowAt(rows: seq<OriginEvent>, sequence: int): Option<OriginEvent>
  {
    if 1 <= sequence <= |rows| then Some(rows[sequence - 1]) else None
  }

  /** One round of the event loop. */
  function Feed1(tx: Tx, r: Replica, origin: NodeId, e: OriginEvent, refused: set<int>): Tx
  {
    match tx
    case Stopped(_, _, _) => tx
    case Running(rows, projected, cursor, hash) =>
      if e.sequence <= r.cursor then
        var existing := RowAt(rows, e.sequence);
        if existing.None? then Stopped(rows, projected, RowMissing)
        else if existing.value.eventHash != e.eventHash then
          Stopped(rows, projected,
            Equivocation(Evidence(origin, EventSequence, e.sequence, existing.value.eventHash, e.eventHash)))
        else tx
      else if e.sequence != cursor + 1 then Stopped(rows, projected, Gap)
      else if e.previousHash != hash then
        Stopped(rows, projected, Equivocation(Evidence(origin, ChainFork, e.sequence, hash, e.previousHash)))
      else if e.sequence in refused then Stopped(rows, projected, Refused)
      else Running(rows + [e], projected + [e], e.sequence, e.eventHash)
  }

  /** The event loop, up to event `k`. */
  function Feed(r: Replica, b: Bundle, refused: set<int>, k: nat): Tx
    requires k <= |b.events|
  {
    if k == 0 then Running(r.events, [], r.cursor, r.eventHash)
    else Feed1(Feed(r, b, refused, k - 1), r, b.originId, b.events[k - 1], refused)
  }

  predicate NeedsWitness(r: Replica, b: Bundle)
  {
    exists i :: 0 <= i < |b.events| && b.events[i].sequence > r.cursor && b.events[i].record.kind != WITNESS_KIND
  }

  /** A transaction's end: the tables, the outcome, and the projections that became permanent. */
  type Ending = (Db, Outcome, seq<OriginEvent>)

  /** The writes after the checkpoint test: checkpoint row, head, witness and window. */
  function Finish(db: Db, b: Bundle, r: Replica, tx: Tx, statement: Record): Ending
    requires tx.Running?
  {
    var r' := Replica(r.publicKey, tx.cursor, tx.hash, tx.rows, AddCheckpoint(r.checkpoints, b.checkpoint));
    var db' := db.(replicas := db.replicas[b.originId := r']);
    var key := WitnessKey(b.originId, b.checkpoint.cursor, b.checkpoint.eventHash);
    var imported := |tx.projected|;
    if !NeedsWitness(r, b) then (db', Imported(Report(r.cursor, imported, tx.cursor, tx.hash, None)), tx.projected)
    else if key !in db.witnesses && |statement.canonical| > MAX_CANONICAL_OBJECT_BYTES then
      (db, Failed(WitnessRefused), [])
    else
      var existing := key in db.witnesses;
      var sequence := if existing then db.witnesses[key] else |db.log| + 1;
      (db'.(log := if existing then db.log else Appended(db.key, db.log, statement),
            witnesses := db.witnesses[key := sequence],
            imports := AddWindow(db.imports, Window(b.originId, r.cursor, tx.cursor, sequence))),
       Imported(Report(r.cursor, imported, tx.cursor, tx.hash, Some(sequence))), tx.projected)
  }

  /** A failure rolls everything back; an equivocation commits its evidence with all the transaction holds. */
  function Conclude(db: Db, b: Bundle, r: Replica, tx: Tx, reason: Failure): Ending
  {
    if reason.Equivocation? then
      (db.(replicas := db.replicas[b.originId := r.(events := tx.rows)], evidence := db.evidence + {reason.evidence}),
       Failed(reason), tx.projected)
    else (db, Failed(reason), [])
  }

  /** `import_federation_bundle`. */
  function Transact(db: Db, b: Bundle, refused: set<int>, statement: Record): Ending
  {
    if Admission(db, b).Some? then (db, Failed(Admission(db, b).value), [])
    else EndOf(db, b, Known(db, b), Feed(Known(db, b), b, refused, |b.events|), statement)
  }

  function CheckpointConflict(b: Bundle, stored: HashText): Failure
  {
    Equivocation(Evidence(b.originId, CheckpointHash, b.checkpoint.cursor, stored, b.checkpoint.eventHash))
  }

  /** The test of the checkpoint against the rows, the ones just inserted included. */
  function CheckpointFailure(b: Bundle, rows: seq<OriginEvent>): Option<Failure>
  {
    var row := RowAt(rows, b.checkpoint.cursor);
    if b.checkpoint.cursor != 0 && row.None? then Some(CheckpointBeyondLog)
    else
      var stored := if b.checkpoint.cursor == 0 then ZERO_HASH else row.value.eventHash;
      if stored == b.checkpoint.eventHash then None else Some(CheckpointConflict(b, stored))
  }

  function EndOf(db: Db, b: Bundle, r: Replica, tx: Tx, statement: Record): Ending
  {
    if tx.Stopped? then Conclude(db, b, r, tx, tx.reason)
    else
      var failure := CheckpointFailure(b, tx.rows);
      if failure.Some? then Conclude(db, b, r, tx, failure.value) else Finish(db, b, r, tx, statement)
  }

  // -------------------------------------------------- what it comes down to

  /** What the event loop needs to know of a verified bundle. */
  predicate Contiguous(b: Bundle)
  {
    && 0 <= b.fromCursor
    && (forall i :: 0 <= i < |b.events| ==> b.events[i].sequence == b.fromCursor + i + 1)
    && (forall i :: 0 < i < |b.events| ==> LinkedAt(b.events, i))
  }

  lemma {:induction false} ValidIsContiguous(b: Bundle)
    requires ValidBundle(b)
    ensures Contiguous(b)
  {
    forall i | 0 <= i < |b.events|
      ensures b.events[i].sequence == b.fromCursor + i + 1
    {
      assert ValidAt(b.originKey, b.fromCursor, b.events, i);
    }
  }

  /**
    What the event loop has established after `k` events: it is past no
    difference, and holds the new rows and their head.
  */
  ghost predicate ScannedTo(
    r: Replica, b: Bundle, refused: set<int>, k: nat, rows: seq<OriginEvent>, currentHash: HashText)
    requires 0 <= b.fromCursor <= r.cursor == |r.events| && k <= |b.events|
  {
    var n, d := Overlap(r, b), FirstDifference(r, b, 0);
    && (k <= d || d == n)
    && (k <= n ==> rows == r.events && currentHash == r.eventHash)
    && (k > n ==>
          && rows == r.events + b.events[n..k] && currentHash == b.events[k - 1].eventHash
          && b.events[n].previousHash == r.eventHash)
    && (forall i :: n <= i < k ==> b.events[i].sequence !in refused)
  }

  /** An event at or below the stored head: the loop goes on over the stored hash and stops at another. */
  lemma {:induction false} OverlapStep(
    r: Replica, b: Bundle, refused: set<int>, k: nat, rows: seq<OriginEvent>, currentHash: HashText)
    requires Contiguous(b) && b.fromCursor <= r.cursor == |r.events|
    requires k < |b.events| && b.events[k].sequence <= r.cursor && ScannedTo(r, b, refused, k, rows, currentHash)
    ensures 1 <= b.events[k].sequence <= |rows| && rows == r.events
    ensures var existing := rows[b.events[k].sequence - 1].eventHash;
      var evidence := Evidence(b.originId, EventSequence, b.events[k].sequence, existing, b.events[k].eventHash);
      if existing == b.events[k].eventHash then ScannedTo(r, b, refused, k + 1, rows, currentHash)
      else Scan(r, b, refused) == Halted(Equivocation(evidence))
  {
    assert b.events[k].sequence == b.fromCursor + k + 1;
    assert SameHash(r, b, k) <==> r.events[b.fromCursor + k].eventHash == b.events[k].eventHash;
  }

  /** An event above the stored head: never a gap, and a fork only at the first. */
  lemma {:induction false} NewEventStep(
    r: Replica, b: Bundle, refused: set<int>, k: nat, rows: seq<OriginEvent>, currentHash: HashText)
    requires Contiguous(b) && b.fromCursor <= r.cursor == |r.events|
    requires k < |b.events| && b.events[k].sequence > r.cursor && ScannedTo(r, b, refused, k, rows, currentHash)
    ensures b.events[k].sequence == |rows| + 1
    ensures var e := b.events[k];
      if e.previousHash != currentHash then
        && rows == r.events
        && Scan(r, b, refused) ==
          Halted(Equivocation(Evidence(b.originId, ChainFork, e.sequence, currentHash, e.previousHash)))
      else if e.sequence in refused then Scan(r, b, refused) == Halted(Refused)
      else ScannedTo(r, b, refused, k + 1, rows + [e], e.eventHash)
  {
    var n := Overlap(r, b);
    assert b.events[k].sequence == b.fromCursor + k + 1;
    assert n <= k;
    assert k > n ==> LinkedAt(b.events, k);
    assert b.events[n..k + 1] == b.events[n..k] + [b.events[k]];
  }

  lemma {:induction false} ScanEnds(
    r: Replica, b: Bundle, refused: set<int>, rows: seq<OriginEvent>, currentHash: HashText)
    requires b.fromCursor >= 0 && b.fromCursor <= r.cursor == |r.events| &&
      r.eventHash == HashTextAt(r.events, |r.events|)
    requires ScannedTo(r, b, refused, |b.events|, rows, currentHash)
    ensures Scan(r, b, refused) == Retained(rows[r.cursor..]) && rows == r.events + rows[r.cursor..]
    ensures currentHash == HashTextAt(rows, |rows|)
  {
    var n := Overlap(r, b);
    assert rows == r.events + b.events[n..];
  }

  /**
    What the loop's state after `k` events amounts to; in particular it has
    written nothing when it meets a conflict.
  */
  ghost predicate FedTo(r: Replica, b: Bundle, refused: set<int>, k: nat, tx: Tx)
    requires 0 <= b.fromCursor <= r.cursor == |r.events| && k <= |b.events|
  {
    match tx
    case Running(rows, projected, cursor, hash) =>
      ScannedTo(r, b, refused, k, rows, hash) && cursor == |rows| && rows == r.events + projected
    case Stopped(rows, projected, reason) =>
      && Scan(r, b, refused) == Halted(reason) && reason != Gap && reason != RowMissing
      && (reason.Equivocation? ==> rows == r.events && projected == [])
  }

  lemma {:induction false} FeedStep(r: Replica, b: Bundle, refused: set<int>, k: nat, tx: Tx)
    requires Contiguous(b) && b.fromCursor <= r.cursor == |r.events| && k < |b.events| && FedTo(r, b, refused, k, tx)
    ensures FedTo(r, b, refused, k + 1, Feed1(tx, r, b.originId, b.events[k], refused))
  {
    if tx.Running? {
      if b.events[k].sequence <= r.cursor {
        OverlapStep(r, b, refused, k, tx.rows, tx.hash);
      } else {
        NewEventStep(r, b, refused, k, tx.rows, tx.hash);
      }
    }
  }

  lemma {:induction false} FeedIsScan(r: Replica, b: Bundle, refused: set<int>, k: nat)
    requires Contiguous(b) && b.fromCursor <= r.cursor == |r.events| && k <= |b.events|
    ensures FedTo(r, b, refused, k, Feed(r, b, refused, k))
  {
    if k > 0 {
      FeedIsScan(r, b, refused, k - 1);
      FeedStep(r, b, refused, k - 1, Feed(r, b, refused, k - 1));
    }
  }

  lemma {:induction false} ShouldWitness(b: Bundle, r: Replica)
    requires Contiguous(b) && b.fromCursor <= r.cursor
    ensures NeedsWitness(r, b) <==> !AllWitnesses(b.events[Overlap(r, b)..])
  {
    var n := Overlap(r, b);
    var news := b.events[n..];
    if i :| 0 <= i < |b.events| && b.events[i].sequence > r.cursor && b.events[i].record.kind != WITNESS_KIND {
      assert news[i - n].record.kind != WITNESS_KIND;
    }
    if i :| 0 <= i < |news| && news[i].record.kind != WITNESS_KIND {
      assert b.events[n + i].sequence > r.cursor;
    }
  }

  lemma {:induction false} FinishIsCommit(db: Db, b: Bundle, r: Replica, tx: Tx, statement: Record)
    requires Contiguous(b) && b.fromCursor <= r.cursor == |r.events| && tx.Running?
    requires tx.projected == b.events[Overlap(r, b)..] && tx.rows == r.events + tx.projected
    requires tx.cursor == |tx.rows| && tx.hash == HashTextAt(tx.rows, |tx.rows|)
    ensures var (db', outcome, projected) := Finish(db, b, r, tx, statement);
      && (db', outcome) == Commit(db, b, r, tx.projected, statement)
      && projected == if outcome.Imported? then tx.projected else []
  {
    ShouldWitness(b, r);
    var key := WitnessKey(b.originId, b.checkpoint.cursor, b.checkpoint.eventHash);
    assert key in db.witnesses ==> db.witnesses[key := db.witnesses[key]] == db.witnesses;
  }

  /**
    The checkpoint of a verified bundle with events is its last event's hash, so
    only an empty bundle can contradict it.
  */
  lemma {:induction false} CheckpointConflictIsEmpty(
    r: Replica, b: Bundle, refused: set<int>, rows: seq<OriginEvent>, hash: HashText)
    requires ValidBundle(b) && b.fromCursor <= r.cursor == |r.events| && b.events != []
    requires ScannedTo(r, b, refused, |b.events|, rows, hash)
    ensures 0 < b.throughCursor <= |rows| && rows[b.throughCursor - 1].eventHash == b.checkpoint.eventHash
  {
    var n := Overlap(r, b);
    if n == |b.events| {
      assert SameHash(r, b, n - 1);
    }
  }

  /** The transaction ends as the import does, except that a conflict has committed the peer row as well. */
  ghost predicate EndsAs(end: Ending, db: Db, b: Bundle, r: Replica, want: (Db, Outcome))
  {
    var (db', outcome, projected) := end;
    && outcome == want.1
    && outcome != Failed(Gap) && outcome != Failed(RowMissing) && outcome != Failed(CheckpointBeyondLog)
    && projected == (if outcome.Imported? && 0 <= Overlap(r, b) then b.events[Overlap(r, b)..] else [])
    && db' == if IsEquivocation(outcome) then want.0.(replicas := db.replicas[b.originId := r]) else want.0
  }

  lemma {:induction false} StoppedEnd(db: Db, b: Bundle, r: Replica, refused: set<int>, statement: Record, tx: Tx)
    requires 0 <= b.fromCursor <= r.cursor == |r.events| && b.throughCursor == b.fromCursor + |b.events|
    requires tx.Stopped? && FedTo(r, b, refused, |b.events|, tx)
    ensures EndsAs(EndOf(db, b, r, tx, statement), db, b, r, ImportAdmitted(db, b, r, refused, statement))
  {
  }

  /** What the loop leaves when it got through: the new events, their head, and the stored hash at the checkpoint. */
  lemma {:induction false} RunningRows(b: Bundle, r: Replica, refused: set<int>, tx: Tx)
    requires ValidBundle(b) && b.fromCursor <= r.cursor == |r.events| && r.eventHash == HashTextAt(r.events, |r.events|)
    requires tx.Running? && FedTo(r, b, refused, |b.events|, tx)
    ensures Scan(r, b, refused) == Retained(tx.projected) && tx.projected == b.events[Overlap(r, b)..]
    ensures tx.rows == r.events + tx.projected && tx.cursor == |tx.rows| && tx.hash == HashTextAt(tx.rows, |tx.rows|)
    ensures b.throughCursor <= |tx.rows|
    ensures HashTextAt(tx.rows, b.throughCursor) != b.checkpoint.eventHash ==> b.events == []
  {
    ScanEnds(r, b, refused, tx.rows, tx.hash);
    assert tx.projected == tx.rows[r.cursor..];
    if b.events != [] {
      CheckpointConflictIsEmpty(r, b, refused, tx.rows, tx.hash);
    }
  }

  lemma {:induction false} RunningEnd(db: Db, b: Bundle, r: Replica, refused: set<int>, statement: Record, tx: Tx)
    requires Contiguous(b) && b.fromCursor <= r.cursor == |r.events|
    requires b.checkpoint.cursor == b.throughCursor == b.fromCursor + |b.events|
    requires tx.Running? && Scan(r, b, refused) == Retained(tx.projected) && tx.projected == b.events[Overlap(r, b)..]
    requires tx.rows == r.events + tx.projected && tx.cursor == |tx.rows| && tx.hash == HashTextAt(tx.rows, |tx.rows|)
    requires HashTextAt(tx.rows, b.throughCursor) != b.checkpoint.eventHash ==> b.events == []
    ensures EndsAs(EndOf(db, b, r, tx, statement), db, b, r, ImportAdmitted(db, b, r, refused, statement))
  {
    FinishIsCommit(db, b, r, tx, statement);
    assert b.events == [] ==> tx.projected == [] && tx.rows == r.events;
  }

  lemma {:induction false} EndIsImport(db: Db, b: Bundle, r: Replica, refused: set<int>, statement: Record)
    requires ValidBundle(b) && Contiguous(b) && b.fromCursor <= r.cursor == |r.events|
    requires r.eventHash == HashTextAt(r.events, |r.events|)
    ensures EndsAs(EndOf(db, b, r, Feed(r, b, refused, |b.events|), statement), db, b, r,
      ImportAdmitted(db, b, r, refused, statement))
  {
    var tx := Feed(r, b, refused, |b.events|);
    FeedIsScan(r, b, refused, |b.events|);
    if tx.Stopped? {
      StoppedEnd(db, b, r, refused, statement, tx);
    } else {
      RunningRows(b, r, refused, tx);
      RunningEnd(db, b, r, refused, statement, tx);
    }
  }

  /**
    Commit-on-conflict is harmless.  The transaction is the import that Replica
    specifies.  When it fails, and also when it fails by committing, it leaves
    every event row, projection, peer head, checkpoint, witness and window as
    it was; an equivocation adds one piece of evidence against an origin that
    was retained before, with two different hashes; and the errors for a gap, a
    missing row and a checkpoint beyond the log never occur.
  */
  lemma {:induction false} CommitOnConflictIsHarmless(db: Db, b: Bundle, refused: set<int>, statement: Record)
    requires Inv(db)
    ensures var (db', outcome, projected) := Transact(db, b, refused, statement);
      && (db', outcome) == Import(db, b, refused, statement)
      && outcome != Failed(Gap) && outcome != Failed(RowMissing) && outcome != Failed(CheckpointBeyondLog)
      && projected == (if outcome.Imported? then b.events[Overlap(Known(db, b), b)..] else [])
      && (outcome.Failed? && !IsEquivocation(outcome) ==> db' == db)
      && (IsEquivocation(outcome) ==>
            var e := outcome.reason.evidence;
            db' == db.(evidence := db.evidence + {e}) && e.origin in db.replicas && e.existing != e.incoming)
  {
    FailureIsHarmless(db, b, refused, statement);
    if Admission(db, b).None? {
      var r := Known(db, b);
      assert ReplicaOk(b.originId, r);
      ValidIsContiguous(b);
      EndIsImport(db, b, r, refused, statement);
      if b.originId in db.replicas {
        assert db.replicas[b.originId := r] == db.replicas;
      } else {
        FirstContactNeverConflicts(db, b, refused, statement);
      }
    }
  }

  /** The two records are different objects and share no author nonce. */
  predicate Unlike(a: Record, b: Record, nonceOf: Record -> Option<string>)
  {
    a.canonical != b.canonical && (nonceOf(a).Some? ==> nonceOf(a) != nonceOf(b))
  }

  lemma {:induction false} TakenMeansAlike(
    key: PublicKey, log: seq<OriginEvent>, record: Record, nonceOf: Record -> Option<string>)
    requires IsLog(key, log)
    ensures EventIdTaken(log, record) || NonceTaken(log, record, nonceOf) <==>
      exists i :: 0 <= i < |log| && !Unlike(log[i].record, record, nonceOf)
  {
    forall i | 0 <= i < |log|
      ensures log[i].eventId == EventIdOf(log[i].record.canonical)
    {
      assert SealedAt(key, log, i);
    }
  }

  // ---------------------------------------------------------------- the tables

  /** The tables of one node, updated in place by its transactions. */
  class Node {
    const key: PublicKey
    var log: seq<OriginEvent>
    var replicas: map<NodeId, Replica>
    var evidence: set<Evidence>
    var witnesses: map<WitnessKey, int>
    var imports: seq<Window>
    /** The imported events whose projections are in the tables, in the order they were applied. */
    var projected: seq<OriginEvent>

    constructor (key: PublicKey)
      requires key.Ed25519?
      ensures State() == Db(key, [], map[], {}, map[], [])
      ensures Inv(State())
    {
      this.key := key;
      log, replicas, evidence, witnesses, imports, projected := [], map[], {}, map[], [], [];
    }

    function State(): Db
      reads this
    {
      Db(key, log, replicas, evidence, witnesses, imports)
    }

    /**
      `append_event`: chain, hash and sign one more record, unless a unique index
      refuses it.  `nonceOf` reads the delegation and nonce off a record.
    */
    method AppendEvent(record: Record, nonceOf: Record -> Option<string>) returns (r: Result<int, Error>)
      requires Inv(State())
      modifies this`log
      ensures Inv(State())
      ensures r.Ok? <==>
        |record.canonical| <= 65_536 && forall i :: 0 <= i < |old(log)| ==> Unlike(old(log)[i].record, record, nonceOf)
      ensures r.Ok? ==> r.value == |log| && log == Appended(key, old(log), record)
      ensures r.Err? ==> log == old(log)
    {
      if |record.canonical| > MAX_CANONICAL_OBJECT_BYTES { return Err(Validation); }
      TakenMeansAlike(key, log, record, nonceOf);
      if EventIdTaken(log, record) || NonceTaken(log, record, nonceOf) { return Err(Conflict); }
      var previousHash := if log == [] then ZERO_HASH else log[|log| - 1].eventHash;
      LogHash(key, log, |log|);
      assert Records(log)[..|log|] == Records(log);
      assert (Records(log) + [record])[..|log|] == Records(log);
      assert (Records(log) + [record])[..|log| + 1] == Records(log) + [record];
      var hash := Link(previousHash.digest, record);
      var event := OriginEvent(|log| + 1, EventIdOf(record.canonical), record, previousHash, Encode(hash),
        OnDigest(key, hash));
      LogExtension(key, log, event);
      log := log + [event];
      return Ok(|log|);
    }

    method AdmitBundle(b: Bundle) returns (refusal: Option<Failure>)
      ensures refusal == Admission(State(), b)
    {
      var verified := VerifyBundle(b);
      if verified.Err? { return Some(Unverified); }
      if b.originId == NodeIdOf(key) { return Some(OwnOrigin); }
      var previouslyKnown := 0;
      if b.originId in replicas {
        var peer := replicas[b.originId];
        if peer.publicKey != b.originKey { return Some(KeyChanged); }
        previouslyKnown := peer.cursor;
      } else if b.fromCursor != 0 {
        return Some(FirstContactNotAtZero);
      }
      if b.fromCursor > previouslyKnown { return Some(NotContiguous); }
      return None;
    }

    /** The event loop: each new event is projected and then inserted, in the open transaction. */
    method FeedEvents(b: Bundle, r: Replica, refused: set<int>) returns (tx: Tx)
      requires b.originId in replicas && replicas[b.originId] == r
      modifies this`replicas, this`projected
      ensures tx == Feed(r, b, refused, |b.events|)
      ensures replicas == old(replicas)[b.originId := r.(events := tx.rows)]
      ensures projected == old(projected) + tx.projected
    {
      var cursor, hash := r.cursor, r.eventHash;
      tx := Running(r.events, [], cursor, hash);
      for k := 0 to |b.events|
        invariant tx == Feed(r, b, refused, k) && tx.Running? && tx.cursor == cursor && tx.hash == hash
        invariant replicas == old(replicas)[b.originId := r.(events := tx.rows)]
        invariant projected == old(projected) + tx.projected
      {
        var event := b.events[k];
        var rows := replicas[b.originId].events;
        var failure: Option<Failure> := None;
        if event.sequence <= r.cursor {
          var existing := RowAt(rows, event.sequence);
          if existing.None? {
            failure := Some(RowMissing);
          } else if existing.value.eventHash != event.eventHash {
            failure := Some(Equivocation(Evidence(b.originId, EventSequence, event.sequence, existing.value.eventHash,
              event.eventHash)));
          }
        } else if event.sequence != cursor + 1 {
          failure := Some(Gap);
        } else if event.previousHash != hash {
          failure := Some(Equivocation(Evidence(b.originId, ChainFork, event.sequence, hash, event.previousHash)));
        } else if event.sequence in refused {
          failure := Some(Refused);
        } else {
          projected := projected + [event];
          replicas := replicas[b.originId := replicas[b.originId].(events := rows + [event])];
          cursor, hash := event.sequence, event.eventHash;
        }
        ghost var next := Feed1(tx, r, b.originId, event, refused);
        assert Feed(r, b, refused, k + 1) == next;
        if failure.Some? {
          tx := Stopped(tx.rows, tx.projected, failure.value);
          StoppedForGood(r, b, refused, k + 1, |b.events|);
          return;
        }
        var applied := if event.sequence <= r.cursor then tx.projected else tx.projected + [event];
        tx := Running(replicas[b.originId].events, applied, cursor, hash);
      }
    }

    /**
      The witness of a checkpoint, appended unless it exists, and the window it
      announces; `None` if it is too large.
    */
    method RecordWitness(k: WitnessKey, from: int, through: int, statement: Record) returns (witnessed: Option<int>)
      modifies this`log, this`witnesses, this`imports
      ensures witnessed ==
        if k in old(witnesses) then Some(old(witnesses)[k])
        else if |statement.canonical| > MAX_CANONICAL_OBJECT_BYTES then None
        else Some(|old(log)| + 1)
      ensures witnessed.None? || k in old(witnesses) ==> log == old(log) && witnesses == old(witnesses)
      ensures witnessed.Some? && k !in old(witnesses) ==>
        log == Appended(key, old(log), statement) && witnesses == old(witnesses)[k := |old(log)| + 1]
      ensures imports ==
        if witnessed.None? then old(imports)
        else AddWindow(old(imports), Window(k.origin, from, through, witnessed.value))
    {
      if k in witnesses {
        witnessed := Some(witnesses[k]);
      } else {
        if |statement.canonical| > MAX_CANONICAL_OBJECT_BYTES { return None; }
        log := Appended(key, log, statement);
        witnesses := witnesses[k := |log|];
        witnessed := Some(|log|);
      }
      imports := AddWindow(imports, Window(k.origin, from, through, witnessed.value));
    }

    method TestCheckpoint(b: Bundle, rows: seq<OriginEvent>) returns (failure: Option<Failure>)
      ensures failure == CheckpointFailure(b, rows)
    {
      var stored := ZERO_HASH;
      if b.checkpoint.cursor != 0 {
        var row := RowAt(rows, b.checkpoint.cursor);
        if row.None? { return Some(CheckpointBeyondLog); }
        stored := row.value.eventHash;
      }
      if stored != b.checkpoint.eventHash { return Some(CheckpointConflict(b, stored)); }
      return None;
    }

    /** The whole transaction, between the checks before it and its commit or rollback. */
    method RunTransaction(b: Bundle, refused: set<int>, statement: Record) returns (outcome: Outcome)
      requires Admission(State(), b).None?
      modifies this
      ensures var (db', verdict, more) := Transact(old(State()), b, refused, statement);
        State() == db' && outcome == verdict && projected == old(projected) + more
    {
      var before, projectedBefore := replicas, projected;
      var r := Known(State(), b);
      // the peer row, new at first contact
      replicas := replicas[b.originId := r];
      var tx := FeedEvents(b, r, refused);
      var failure: Option<Failure>;
      if tx.Stopped? {
        failure := Some(tx.reason);
      } else {
        failure := TestCheckpoint(b, replicas[b.originId].events);
      }
      if failure.None? {
        outcome := FinishImport(b, r, tx, statement, before);
        if outcome.Failed? {
          replicas, projected := before, projectedBefore;
        }
      } else {
        outcome := FailImport(failure.value, before, projectedBefore);
      }
    }

    /**
      On an equivocation the evidence is committed, and with it whatever the
      transaction wrote; other failures roll back.
    */
    method FailImport(
      reason: Failure, before: map<NodeId, Replica>, projectedBefore: seq<OriginEvent>)
      returns (outcome: Outcome)
      modifies this`replicas, this`projected, this`evidence
      ensures outcome == Failed(reason)
      ensures reason.Equivocation? ==>
        replicas == old(replicas) && projected == old(projected) && evidence == old(evidence) + {reason.evidence}
      ensures !reason.Equivocation? ==> replicas == before && projected == projectedBefore && evidence == old(evidence)
    {
      if reason.Equivocation? {
        evidence := evidence + {reason.evidence};
      } else {
        replicas, projected := before, projectedBefore;
      }
      return Failed(reason);
    }

    method FinishImport(
      b: Bundle, r: Replica, tx: Tx, statement: Record, ghost before: map<NodeId, Replica>)
      returns (outcome: Outcome)
      requires tx.Running? && b.originId in replicas && replicas == before[b.originId := replicas[b.originId]]
      modifies this`replicas, this`log, this`witnesses, this`imports
      ensures var db := old(State()).(replicas := before);
        var (db', verdict, _) := Finish(db, b, r, tx, statement);
        && outcome == verdict
        && (outcome.Imported? ==> State() == db')
        && (outcome.Failed? ==> State() == old(State()))
    {
      var needed := NeedsWitness(r, b);
      var witnessed: Option<int> := None;
      if needed {
        witnessed := RecordWitness(WitnessKey(b.originId, b.checkpoint.cursor, b.checkpoint.eventHash), r.cursor,
          tx.cursor, statement);
        if witnessed.None? { return Failed(WitnessRefused); }
      }
      replicas := replicas[b.originId :=
        Replica(r.publicKey, tx.cursor, tx.hash, tx.rows, AddCheckpoint(r.checkpoints, b.checkpoint))];
      return Imported(Report(r.cursor, |tx.projected|, tx.cursor, tx.hash, witnessed));
    }

    /**
      `import_federation_bundle`: what Replica specifies, and nothing of a failed
      import stays behind but the evidence of an equivocation.
    */
    method ImportBundle(b: Bundle, refused: set<int>, statement: Record) returns (outcome: Outcome)
      requires Inv(State())
      modifies this
      ensures (State(), outcome) == Import(old(State()), b, refused, statement)
      ensures outcome != Failed(Gap) && outcome != Failed(RowMissing) && outcome != Failed(CheckpointBeyondLog)
      ensures outcome.Failed? ==> projected == old(projected)
      ensures outcome.Imported? ==> projected == old(projected) + b.events[Overlap(Known(old(State()), b), b)..]
    {
      CommitOnConflictIsHarmless(State(), b, refused, statement);
      var refusal := AdmitBundle(b);
      if refusal.Some? { return Failed(refusal.value); }
      outcome := RunTransaction(b, refused, statement);
    }
  }

  lemma {:induction false} StoppedForGood(r: Replica, b: Bundle, refused: set<int>, k: nat, m: nat)
    requires k <= m <= |b.events| && Feed(r, b, refused, k).Stopped?
    ensures Feed(r, b, refused, m) == Feed(r, b, refused, k)
    decreases m
  {
    if k < m {
      StoppedForGood(r, b, refused, k, m - 1);
    }
  }
}
