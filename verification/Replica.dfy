/**
  A node's database as far as replication touches it, and the import of a
  federation bundle (src/db.rs).
*/
module Replica {
  import opened Common
  import opened Chain

  datatype ConflictKind = EventSequence | ChainFork | CheckpointHash

  datatype Evidence = Evidence(origin: NodeId, kind: ConflictKind, cursor: int, existing: HashText, incoming: HashText)

  /** A row of `federation_imports`: the remote range (from, through] that one local witness event announced. */
  datatype Window = Window(origin: NodeId, from: int, through: int, witnessSequence: int)

  datatype WitnessKey = WitnessKey(origin: NodeId, cursor: int, eventHash: HashText)

  /**
    What is retained of one origin: the `federation_peers` head, which is stored
    apart from the event rows it summarizes, the `remote_events` rows in
    sequence order, and the `remote_checkpoints` rows in insertion order.
  */
  datatype Replica = Replica(
    publicKey: PublicKey, cursor: int, eventHash: HashText,
    events: seq<OriginEvent>, checkpoints: seq<Checkpoint>)

  datatype Db = Db(
    key: PublicKey, log: seq<OriginEvent>, replicas: map<NodeId, Replica>,
    evidence: set<Evidence>, witnesses: map<WitnessKey, int>, imports: seq<Window>)

  datatype Failure =
    | Unverified
    | OwnOrigin
    | KeyChanged
    | FirstContactNotAtZero
    | NotContiguous
    | RowMissing
    | Gap
    | Refused
    | CheckpointBeyondLog
    | WitnessRefused
    | Equivocation(evidence: Evidence)

  datatype Report = Report(
    previouslyKnownCursor: int, importedEvents: int, currentCursor: int, currentHash: HashText,
    witnessSequence: Option<int>)

  datatype Outcome = Imported(report: Report) | Failed(reason: Failure)

  // ------------------------------------------------------------ invariants

  ghost predicate ReplicaOk(o: NodeId, r: Replica)
  {
    && r.publicKey.Ed25519?
    && o == NodeIdOf(r.publicKey)
    && r.cursor == |r.events|
    && IsLog(r.publicKey, r.events)
    && r.eventHash == HashTextAt(r.events, |r.events|)
  }

  predicate CheckpointOk(r: Replica, c: Checkpoint)
  {
    ValidCheckpoint(c) && c.publicKey == r.publicKey && Genuine(c, r.events)
  }

  /** Some retained checkpoint lies above `after` but within one bundle of it. */
  predicate CheckpointNear(r: Replica, after: int)
  {
    exists i :: 0 <= i < |r.checkpoints| && after < r.checkpoints[i].cursor <= after + MAX_FEDERATION_EVENTS
  }

  predicate CheckpointAt(r: Replica, cursor: int)
  {
    exists i :: 0 <= i < |r.checkpoints| && r.checkpoints[i].cursor == cursor
  }

  /** The head has a checkpoint, and none is ever more than 500 events away. */
  ghost predicate CheckpointsOk(r: Replica)
  {
    && (forall i :: 0 <= i < |r.checkpoints| ==> CheckpointOk(r, r.checkpoints[i]))
    && CheckpointAt(r, |r.events|)
    && forall a :: 0 <= a < |r.events| ==> CheckpointNear(r, a)
  }

  ghost predicate Inv(db: Db)
  {
    && db.key.Ed25519?
    && IsLog(db.key, db.log)
    && NodeIdOf(db.key) !in db.replicas
    && forall o :: o in db.replicas ==> ReplicaOk(o, db.replicas[o]) && CheckpointsOk(db.replicas[o])
  }

  /** What a node retains of an origin. */
  function RetainedLog(db: Db, o: NodeId): seq<OriginEvent>
  {
    if o in db.replicas then db.replicas[o].events else []
  }

  // --------------------------------------------------------- specification

  function Known(db: Db, b: Bundle): Replica
  {
    if b.originId in db.replicas then db.replicas[b.originId]
    else Replica(b.originKey, 0, ZERO_HASH, [], [])
  }

  /** How many of the bundle's events lie at or below the stored head. */
  function Overlap(r: Replica, b: Bundle): int
  {
    Min(|b.events|, r.cursor - b.fromCursor)
  }

  predicate SameHash(r: Replica, b: Bundle, i: int)
    requires 0 <= i < |b.events| && 0 <= b.fromCursor + i < |r.events|
  {
    r.events[b.fromCursor + i].eventHash == b.events[i].eventHash
  }

  /** The first overlapping event that differs from the stored one, or the end of the overlap. */
  function FirstDifference(r: Replica, b: Bundle, i: nat): (n: int)
    requires 0 <= b.fromCursor <= r.cursor == |r.events|
    requires i <= Overlap(r, b)
    ensures i <= n <= Overlap(r, b)
    ensures forall j :: i <= j < n ==> SameHash(r, b, j)
    ensures n < Overlap(r, b) ==> !SameHash(r, b, n)
    decreases Overlap(r, b) - i
  {
    if i < Overlap(r, b) && SameHash(r, b, i) then FirstDifference(r, b, i + 1) else i
  }

  function AddCheckpoint(rows: seq<Checkpoint>, c: Checkpoint): seq<Checkpoint>
  {
    if exists i :: 0 <= i < |rows| && rows[i].cursor == c.cursor && rows[i].eventHash == c.eventHash
    then rows else rows + [c]
  }

  function AddWindow(rows: seq<Window>, w: Window): seq<Window>
  {
    if exists i :: 0 <= i < |rows| &&
         (rows[i].witnessSequence == w.witnessSequence || rows[i].(witnessSequence := w.witnessSequence) == w)
    then rows else rows + [w]
  }

  function Appended(key: PublicKey, log: seq<OriginEvent>, record: Record): seq<OriginEvent>
  {
    log + [SealedEvent(key, Records(log) + [record], |log|)]
  }

  /** The unique index on `event_id`, which is derived from the canonical object. */
  predicate EventIdTaken(log: seq<OriginEvent>, record: Record)
  {
    exists i :: 0 <= i < |log| && log[i].eventId == EventIdOf(record.canonical)
  }

  /** The unique index on delegation and author nonce, for records that carry them. */
  predicate NonceTaken(log: seq<OriginEvent>, record: Record, nonceOf: Record -> Option<string>)
  {
    nonceOf(record).Some? && exists i :: 0 <= i < |log| && nonceOf(log[i].record) == nonceOf(record)
  }

  predicate Appendable(log: seq<OriginEvent>, record: Record)
  {
    |record.canonical| <= MAX_CANONICAL_OBJECT_BYTES && !EventIdTaken(log, record)
  }

  predicate AllWitnesses(es: seq<OriginEvent>)
  {
    forall i :: 0 <= i < |es| ==> es[i].record.kind == WITNESS_KIND
  }

  /** The commit of an import whose new events are `news`. */
  function Commit(db: Db, b: Bundle, r: Replica, news: seq<OriginEvent>, statement: Record): (Db, Outcome)
    requires r.cursor == |r.events|
  {
    var events := r.events + news;
    var r' := Replica(r.publicKey, |events|, HashTextAt(events, |events|), events,
      AddCheckpoint(r.checkpoints, b.checkpoint));
    var db' := db.(replicas := db.replicas[b.originId := r']);
    var key := WitnessKey(b.originId, b.checkpoint.cursor, b.checkpoint.eventHash);
    if AllWitnesses(news) then
      (db', Imported(Report(r.cursor, |news|, |events|, r'.eventHash, None)))
    else if key in db.witnesses then
      (db'.(imports := AddWindow(db.imports, Window(b.originId, r.cursor, |events|, db.witnesses[key]))),
       Imported(Report(r.cursor, |news|, |events|, r'.eventHash, Some(db.witnesses[key]))))
    else if |statement.canonical| > MAX_CANONICAL_OBJECT_BYTES then
      (db, Failed(WitnessRefused))
    else
      var sequence := |db.log| + 1;
      (db'.(log := Appended(db.key, db.log, statement),
            witnesses := db.witnesses[key := sequence],
            imports := AddWindow(db.imports, Window(b.originId, r.cursor, |events|, sequence))),
       Imported(Report(r.cursor, |news|, |events|, r'.eventHash, Some(sequence))))
  }

  /** What became of the bundle's events: stopped, or these new ones to retain. */
  datatype Scanned = Halted(reason: Failure) | Retained(news: seq<OriginEvent>)

  /**
    The events against the stored log: overlapping events must have the stored
    hashes, and the first new one must extend the stored head.  `refused` holds
    the sequences of the new events that the projection layer rejects.
  */
  function Scan(r: Replica, b: Bundle, refused: set<int>): Scanned
    requires 0 <= b.fromCursor <= r.cursor == |r.events|
  {
    var n := Overlap(r, b);
    var d := FirstDifference(r, b, 0);
    if d < n then
      Halted(Equivocation(Evidence(b.originId, EventSequence, b.events[d].sequence,
        r.events[b.fromCursor + d].eventHash, b.events[d].eventHash)))
    else if n < |b.events| && b.events[n].previousHash != r.eventHash then
      Halted(Equivocation(Evidence(b.originId, ChainFork, b.events[n].sequence, r.eventHash, b.events[n].previousHash)))
    else if exists i :: n <= i < |b.events| && b.events[i].sequence in refused then
      Halted(Refused)
    else
      Retained(b.events[n..])
  }

  /** A failed import keeps nothing, except the evidence of an equivocation. */
  function Abort(db: Db, reason: Failure): (Db, Outcome)
  {
    (if reason.Equivocation? then db.(evidence := db.evidence + {reason.evidence}) else db, Failed(reason))
  }

  ghost predicate Shaped(db: Db)
  {
    forall o :: o in db.replicas ==> db.replicas[o].cursor == |db.replicas[o].events|
  }

  /** Why a bundle is turned away before its events are looked at. */
  function Admission(db: Db, b: Bundle): Option<Failure>
  {
    if !ValidBundle(b) then Some(Unverified)
    else if b.originId == NodeIdOf(db.key) then Some(OwnOrigin)
    else if Known(db, b).publicKey != b.originKey then Some(KeyChanged)
    else if b.originId !in db.replicas && b.fromCursor != 0 then Some(FirstContactNotAtZero)
    else if b.fromCursor > Known(db, b).cursor then Some(NotContiguous)
    else None
  }

  /**
    What an import does, case by case.  `statement` is the signed witness record
    that it may append to the local log.
  */
  ghost function Import(db: Db, b: Bundle, refused: set<int>, statement: Record): (Db, Outcome)
    requires Shaped(db)
  {
    if Admission(db, b).Some? then Abort(db, Admission(db, b).value)
    else ImportAdmitted(db, b, Known(db, b), refused, statement)
  }

  ghost function ImportAdmitted(db: Db, b: Bundle, r: Replica, refused: set<int>, statement: Record): (Db, Outcome)
    requires 0 <= b.fromCursor <= r.cursor == |r.events|
    requires b.throughCursor == b.fromCursor + |b.events|
  {
    var scanned := Scan(r, b, refused);
    if scanned.Halted? then Abort(db, scanned.reason)
    else
      var stored := HashTextAt(r.events + scanned.news, b.throughCursor);
      if stored != b.checkpoint.eventHash then
        Abort(db, Equivocation(Evidence(b.originId, CheckpointHash, b.checkpoint.cursor, stored,
          b.checkpoint.eventHash)))
      else
        Commit(db, b, r, scanned.news, statement)
  }
}
