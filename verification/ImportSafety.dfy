/**
  What every import keeps, what a failed one leaves behind, and exactly which
  bundles are taken for a fork.
*/
module ImportSafety {
  import opened Common
  import opened Chain
  import opened Replica

  // -------------------------------------------------- the invariant is kept

  lemma {:induction false} SealedNext(key: PublicKey, es: seq<OriginEvent>, e: OriginEvent)
    requires IsLog(key, es)
    requires ValidEvent(key, e, |es| + 1)
    requires e.previousHash == HashTextAt(es, |es|)
    ensures IsLog(key, es + [e])
  {
    var rs := Records(es);
    LogHash(key, es, |es|);
    assert rs[..|es|] == rs;
    assert (rs + [e.record])[..|es| + 1] == rs + [e.record];
    assert (rs + [e.record])[..|es|] == rs;
    LogExtension(key, es, e);
  }

  /** Events accepted on top of a stored log make it a longer stored log. */
  lemma {:induction false} NewsExtendLog(r: Replica, b: Bundle, n: nat, k: nat)
    requires ValidBundle(b) && IsLog(b.originKey, r.events)
    requires n <= k <= |b.events| && b.fromCursor + n == |r.events|
    requires n < |b.events| ==> b.events[n].previousHash == HashTextAt(r.events, |r.events|)
    ensures IsLog(b.originKey, r.events + b.events[n..k])
  {
    if k == n {
      assert r.events + b.events[n..k] == r.events;
    } else {
      NewsExtendLog(r, b, n, k - 1);
      var es := r.events + b.events[n..k - 1];
      var e := b.events[k - 1];
      assert ValidAt(b.originKey, b.fromCursor, b.events, k - 1);
      assert e.previousHash == HashTextAt(es, |es|) by {
        if k - 1 > n {
          assert LinkedAt(b.events, k - 1);
        } else {
          assert es == r.events;
        }
      }
      SealedNext(b.originKey, es, e);
      assert r.events + b.events[n..k] == es + [e];
    }
  }

  /** An import that went through: the origin's rows grew by `news`, and the checkpoint row is there. */
  ghost predicate Grown(r: Replica, b: Bundle, r': Replica)
    requires 0 <= Overlap(r, b)
  {
    && r'.publicKey == r.publicKey == b.originKey
    && r'.events == r.events + b.events[Overlap(r, b)..]
    && r'.cursor == |r'.events|
    && r'.eventHash == HashTextAt(r'.events, |r'.events|)
    && r'.checkpoints == AddCheckpoint(r.checkpoints, b.checkpoint)
  }

  predicate LogKeptOrWitnessed(db: Db, db': Db, statement: Record)
  {
    || db'.log == db.log
    || (|statement.canonical| <= MAX_CANONICAL_OBJECT_BYTES && db'.log == Appended(db.key, db.log, statement))
  }

  lemma {:induction false} CommitShape(db: Db, b: Bundle, r: Replica, statement: Record)
    requires 0 <= Overlap(r, b) && r.cursor == |r.events| && r.publicKey == b.originKey
    ensures var (db', outcome) := Commit(db, b, r, b.events[Overlap(r, b)..], statement);
      && (outcome.Failed? ==> db' == db && outcome.reason == WitnessRefused)
      && (outcome.Imported? ==>
            && b.originId in db'.replicas
            && db'.replicas == db.replicas[b.originId := db'.replicas[b.originId]]
            && Grown(r, b, db'.replicas[b.originId])
            && outcome.report.importedEvents == |b.events| - Overlap(r, b)
            && outcome.report.currentCursor == |db'.replicas[b.originId].events|
            && db'.key == db.key && db'.evidence == db.evidence
            && LogKeptOrWitnessed(db, db', statement))
  {
  }

  lemma {:induction false} AdmittedShape(db: Db, b: Bundle, r: Replica, refused: set<int>, statement: Record)
    requires 0 <= b.fromCursor <= r.cursor == |r.events| && r.publicKey == b.originKey
    requires b.throughCursor == b.fromCursor + |b.events|
    ensures var (db', outcome) := ImportAdmitted(db, b, r, refused, statement); var n := Overlap(r, b);
      outcome.Imported? ==>
        && (db', outcome) == Commit(db, b, r, b.events[n..], statement)
        && FirstDifference(r, b, 0) == n
        && (n < |b.events| ==> b.events[n].previousHash == r.eventHash)
        && (forall i :: n <= i < |b.events| ==> b.events[i].sequence !in refused)
        && HashTextAt(r.events + b.events[n..], b.throughCursor) == b.checkpoint.eventHash
  {
  }

  lemma {:induction false} ImportedShape(db: Db, b: Bundle, refused: set<int>, statement: Record)
    requires Inv(db) && Import(db, b, refused, statement).1.Imported?
    ensures ValidBundle(b) && b.fromCursor <= Known(db, b).cursor && ReplicaOk(b.originId, Known(db, b))
    ensures b.originId != NodeIdOf(db.key)
    ensures var (db', outcome) := Import(db, b, refused, statement); var r := Known(db, b); var n := Overlap(r, b);
      && outcome.report.importedEvents == |b.events| - n
      && b.originId in db'.replicas && outcome.report.currentCursor == |db'.replicas[b.originId].events|
      && db'.replicas == db.replicas[b.originId := db'.replicas[b.originId]]
      && Grown(r, b, db'.replicas[b.originId])
      && FirstDifference(r, b, 0) == n
      && (n < |b.events| ==> b.events[n].previousHash == r.eventHash)
      && b.throughCursor <= |db'.replicas[b.originId].events|
      && HashTextAt(db'.replicas[b.originId].events, b.throughCursor) == b.checkpoint.eventHash
      && db'.key == db.key && db'.evidence == db.evidence
      && LogKeptOrWitnessed(db, db', statement)
  {
    AdmittedShape(db, b, Known(db, b), refused, statement);
    CommitShape(db, b, Known(db, b), statement);
  }

  lemma {:induction false} CheckpointAdded(rows: seq<Checkpoint>, c: Checkpoint)
    ensures rows <= AddCheckpoint(rows, c)
    ensures forall i :: |rows| <= i < |AddCheckpoint(rows, c)| ==> AddCheckpoint(rows, c)[i] == c
    ensures exists i :: 0 <= i < |AddCheckpoint(rows, c)| && AddCheckpoint(rows, c)[i].cursor == c.cursor
  {
    if |AddCheckpoint(rows, c)| > |rows| {
      assert AddCheckpoint(rows, c)[|rows|] == c;
    }
  }

  /** Rows that grow, with one checkpoint at most 500 events above the old head and at the new one. */
  lemma {:induction false} CheckpointsKept(r: Replica, r': Replica, c: Checkpoint)
    requires r.events <= r'.events && r'.publicKey == r.publicKey
    requires r'.checkpoints == AddCheckpoint(r.checkpoints, c)
    requires CheckpointOk(r', c)
    requires |r'.events| == |r.events| || |r'.events| == c.cursor <= |r.events| + MAX_FEDERATION_EVENTS
    requires CheckpointsOk(r) || (|r'.events| == c.cursor && r.events == [] && r.checkpoints == [])
    ensures CheckpointsOk(r')
  {
    var rows, rows' := r.checkpoints, r'.checkpoints;
    CheckpointAdded(rows, c);
    forall i | 0 <= i < |rows'|
      ensures CheckpointOk(r', rows'[i])
    {
      if i < |rows| {
        assert CheckpointOk(r, rows[i]);
      }
    }
    if |r'.events| != c.cursor {
      assert CheckpointAt(r, |r.events|);
    }
    forall a | 0 <= a < |r'.events|
      ensures CheckpointNear(r', a)
    {
      if a < |r.events| {
        assert CheckpointNear(r, a);
        var i :| 0 <= i < |rows| && a < rows[i].cursor <= a + MAX_FEDERATION_EVENTS;
        assert rows'[i] == rows[i];
      }
    }
  }

  lemma {:induction false} ReplicaKept(r: Replica, b: Bundle, r': Replica)
    requires ValidBundle(b) && ReplicaOk(b.originId, r) && b.fromCursor <= r.cursor
    requires CheckpointsOk(r) || r == Replica(b.originKey, 0, ZERO_HASH, [], [])
    requires Grown(r, b, r')
    requires var n := Overlap(r, b); n < |b.events| ==> b.events[n].previousHash == r.eventHash
    requires b.throughCursor <= |r'.events| && HashTextAt(r'.events, b.throughCursor) == b.checkpoint.eventHash
    ensures ReplicaOk(b.originId, r') && CheckpointsOk(r')
  {
    var n := Overlap(r, b);
    if n < |b.events| {
      NewsExtendLog(r, b, n, |b.events|);
      assert b.events[n..] == b.events[n..|b.events|];
    } else {
      assert r'.events == r.events;
    }
    CheckpointsKept(r, r', b.checkpoint);
  }

  lemma {:induction false} GrownKeepsInv(db: Db, db': Db, o: NodeId, statement: Record)
    requires Inv(db) && o in db'.replicas && db'.replicas == db.replicas[o := db'.replicas[o]]
    requires ReplicaOk(o, db'.replicas[o]) && CheckpointsOk(db'.replicas[o]) && o != NodeIdOf(db.key)
    requires db'.key == db.key && LogKeptOrWitnessed(db, db', statement)
    ensures Inv(db')
  {
    if db'.log != db.log {
      AppendKeepsLog(db.key, db.log, statement);
    }
  }

  /** Every import, successful or not, keeps the node's invariant. */
  lemma {:induction false} ImportKeepsInv(db: Db, b: Bundle, refused: set<int>, statement: Record)
    requires Inv(db)
    ensures Inv(Import(db, b, refused, statement).0)
  {
    var (db', outcome) := Import(db, b, refused, statement);
    if outcome.Imported? {
      ImportedShape(db, b, refused, statement);
      ReplicaKept(Known(db, b), b, db'.replicas[b.originId]);
      GrownKeepsInv(db, db', b.originId, statement);
    } else {
      FailureIsHarmless(db, b, refused, statement);
    }
  }

  lemma {:induction false} AppendKeepsLog(key: PublicKey, log: seq<OriginEvent>, record: Record)
    requires IsLog(key, log) && |record.canonical| <= MAX_CANONICAL_OBJECT_BYTES
    ensures IsLog(key, Appended(key, log, record))
  {
    var e := SealedEvent(key, Records(log) + [record], |log|);
    assert e.record == record;
    LogExtension(key, log, e);
  }

  // ---------------------------------------------------------------- failures

  predicate IsEquivocation(outcome: Outcome)
  {
    outcome.Failed? && outcome.reason.Equivocation?
  }

  /**
    A failed import changes nothing but the evidence table, and adds to it only
    on an equivocation.  An equivocation is only ever found against an origin
    that is already retained, so the commit of the evidence cannot leave the
    empty peer row of a first contact behind; and the two hashes it records
    differ.
  */
  lemma {:induction false} FailureIsHarmless(db: Db, b: Bundle, refused: set<int>, statement: Record)
    requires Inv(db)
    ensures var (db', outcome) := Import(db, b, refused, statement);
      outcome.Failed? ==>
        && (!outcome.reason.Equivocation? ==> db' == db)
        && (outcome.reason.Equivocation? ==>
              var e := outcome.reason.evidence;
              && db' == db.(evidence := db.evidence + {e})
              && e.origin == b.originId && e.origin in db.replicas
              && e.existing != e.incoming)
  {
    if Admission(db, b).None? {
      AdmittedFailure(db, b, Known(db, b), refused, statement);
      if b.originId !in db.replicas {
        FirstContactNeverConflicts(db, b, refused, statement);
      }
    }
  }

  lemma {:induction false} AdmittedFailure(db: Db, b: Bundle, r: Replica, refused: set<int>, statement: Record)
    requires 0 <= b.fromCursor <= r.cursor == |r.events|
    requires b.throughCursor == b.fromCursor + |b.events|
    ensures var (db', outcome) := ImportAdmitted(db, b, r, refused, statement);
      outcome.Failed? ==>
        && db' == Abort(db, outcome.reason).0
        && (outcome.reason.Equivocation? ==>
              outcome.reason.evidence.origin == b.originId &&
                outcome.reason.evidence.existing != outcome.reason.evidence.incoming)
  {
  }

  /** Nothing a first bundle can hold conflicts with the empty log. */
  lemma {:induction false} FirstContactNeverConflicts(db: Db, b: Bundle, refused: set<int>, statement: Record)
    requires ValidBundle(b) && b.fromCursor == 0
    ensures !IsEquivocation(ImportAdmitted(db, b, Replica(b.originKey, 0, ZERO_HASH, [], []), refused, statement).1)
  {
    var r := Replica(b.originKey, 0, ZERO_HASH, [], []);
    if b.events == [] {
      assert r.events + b.events[0..] == [];
    } else {
      NoLaterConflict(db, b, r, refused, statement);
    }
  }

  /** Past admission, only a conflict, a refused event or an oversized witness stops an import. */
  lemma {:induction false} AdmittedUnlessRefused(db: Db, b: Bundle, r: Replica, refused: set<int>, statement: Record)
    requires 0 <= b.fromCursor <= r.cursor == |r.events|
    requires b.throughCursor == b.fromCursor + |b.events|
    requires !IsEquivocation(ImportAdmitted(db, b, r, refused, statement).1)
    requires forall i :: Overlap(r, b) <= i < |b.events| ==> b.events[i].sequence !in refused
    requires |statement.canonical| <= MAX_CANONICAL_OBJECT_BYTES
    ensures ImportAdmitted(db, b, r, refused, statement).1.Imported?
  {
  }

  // ---------------------------------------------------------- fork detection

  /** The bundle starts exactly at the stored head but does not spell its hash in lower case. */
  predicate Misspelled(b: Bundle, r: Replica)
  {
    b.fromCursor == r.cursor && !WellSpelled(b)
  }

  /** A stored event has the hash of a chain's prefix exactly if the stored log has that prefix. */
  lemma {:induction false} HashIffPrefix(key: PublicKey, es: seq<OriginEvent>, g: seq<Record>, k: nat)
    requires IsLog(key, es) && 0 < k <= |es| && k <= |g|
    ensures es[k - 1].eventHash == Encode(HashOf(g[..k])) <==> Records(es)[..k] == g[..k]
  {
    LogHash(key, es, k);
    if HashOf(Records(es)[..k]) == HashOf(g[..k]) {
      HashInjective(Records(es)[..k], g[..k]);
    }
  }

  lemma {:induction false} OverlapHash(r: Replica, b: Bundle, g: seq<Record>, i: nat)
    requires ValidEvents(b.originKey, b.fromCursor, b.events) && IsLog(b.originKey, r.events) && CutFrom(b, g)
    requires i < |b.events| && b.fromCursor + i < |r.events|
    ensures SameHash(r, b, i) <==> Records(r.events)[..b.fromCursor + i + 1] == g[..b.fromCursor + i + 1]
  {
    CutHash(b, g, i + 1);
    HashIffPrefix(b.originKey, r.events, g, b.fromCursor + i + 1);
  }

  /** In the overlap, the first difference is found exactly if the shared prefix differs. */
  lemma {:induction false} DifferenceFound(r: Replica, b: Bundle, g: seq<Record>)
    requires ValidEvents(b.originKey, b.fromCursor, b.events) && IsLog(b.originKey, r.events) && CutFrom(b, g)
    requires b.fromCursor <= r.cursor == |r.events| && 0 < Overlap(r, b)
    ensures var m := b.fromCursor + Overlap(r, b);
      FirstDifference(r, b, 0) < Overlap(r, b) <==> Records(r.events)[..m] != g[..m]
  {
    var n, d := Overlap(r, b), FirstDifference(r, b, 0);
    var m := b.fromCursor + n;
    var rs := Records(r.events);
    OverlapHash(r, b, g, n - 1);
    if d < n {
      OverlapHash(r, b, g, d);
      assert rs[..m][..b.fromCursor + d + 1] == rs[..b.fromCursor + d + 1];
      assert g[..m][..b.fromCursor + d + 1] == g[..b.fromCursor + d + 1];
    }
  }

  /** Without a difference in the overlap, only the very first new event can be taken for a fork. */
  lemma {:induction false} NoLaterConflict(db: Db, b: Bundle, r: Replica, refused: set<int>, statement: Record)
    requires ValidBundle(b) && b.events != []
    requires b.fromCursor <= r.cursor == |r.events| && r.eventHash == HashTextAt(r.events, |r.events|)
    requires FirstDifference(r, b, 0) == Overlap(r, b)
    ensures IsEquivocation(ImportAdmitted(db, b, r, refused, statement).1) <==>
              Overlap(r, b) == 0 && b.events[0].previousHash != r.eventHash
  {
    var n := Overlap(r, b);
    if 0 < n {
      assert SameHash(r, b, n - 1);
      if n < |b.events| {
        assert LinkedAt(b.events, n);
      }
    }
    assert HashTextAt(r.events + b.events[n..], b.throughCursor) == b.events[|b.events| - 1].eventHash;
  }

  /** A bundle is admitted exactly if it verifies, is another node's, and starts at or below what is retained. */
  lemma {:induction false} AdmissionIff(db: Db, b: Bundle)
    requires Inv(db)
    ensures Admission(db, b).None? <==>
      ValidBundle(b) && b.originId != NodeIdOf(db.key) && b.fromCursor <= |RetainedLog(db, b.originId)|
  {
    if b.originId in db.replicas {
      assert ReplicaOk(b.originId, db.replicas[b.originId]);
    }
  }

  /**
    Fork detection is complete and exact.  Take any genesis chain `g` that the
    bundle is cut from.  The import ends in recorded equivocation exactly if
    `g` and the stored log differ anywhere below the shorter of the two heads,
    however far below the bundle's own start, or the first new event spells its
    predecessor's hash otherwise than in lower case.
  */
  lemma {:induction false} ForkDetection(db: Db, b: Bundle, g: seq<Record>, refused: set<int>, statement: Record)
    requires Inv(db) && ValidBundle(b) && CutFrom(b, g)
    requires b.originId != NodeIdOf(db.key) && b.fromCursor <= |RetainedLog(db, b.originId)|
    ensures var stored := RetainedLog(db, b.originId); var m := Min(|stored|, b.throughCursor);
      IsEquivocation(Import(db, b, refused, statement).1) <==>
        Records(stored)[..m] != g[..m] || (b.fromCursor == |stored| && !WellSpelled(b))
  {
    AdmissionIff(db, b);
    var r := Known(db, b);
    assert ReplicaOk(b.originId, r);
    if b.events == [] {
      EmptyBundleConflict(db, b, r, g, refused, statement);
    } else if 0 < Overlap(r, b) {
      OverlapConflict(db, b, r, g, refused, statement);
    } else {
      HeadConflict(db, b, r, g, refused, statement);
    }
  }

  lemma {:induction false} EmptyBundleConflict(
    db: Db, b: Bundle, r: Replica, g: seq<Record>, refused: set<int>, statement: Record)
    requires ValidBundle(b) && ReplicaOk(b.originId, r) && CutFrom(b, g)
    requires b.events == [] && b.fromCursor <= r.cursor
    ensures IsEquivocation(ImportAdmitted(db, b, r, refused, statement).1) <==>
      Records(r.events)[..b.throughCursor] != g
  {
    var rs := Records(r.events);
    LogHash(r.publicKey, r.events, b.throughCursor);
    assert r.events + b.events[0..] == r.events;
    if HashOf(rs[..b.throughCursor]) == HashOf(g) {
      HashInjective(rs[..b.throughCursor], g);
    }
  }

  lemma {:induction false} OverlapConflict(
    db: Db, b: Bundle, r: Replica, g: seq<Record>, refused: set<int>, statement: Record)
    requires ValidBundle(b) && ReplicaOk(b.originId, r) && r.publicKey == b.originKey && CutFrom(b, g)
    requires b.events != [] && b.fromCursor <= r.cursor && 0 < Overlap(r, b)
    ensures var m := Min(r.cursor, b.throughCursor);
      IsEquivocation(ImportAdmitted(db, b, r, refused, statement).1) <==> Records(r.events)[..m] != g[..m]
  {
    DifferenceFound(r, b, g);
    OverlapVerdict(db, b, r, refused, statement);
  }

  /** With events in the overlap, a conflict is a difference in the overlap. */
  lemma {:induction false} OverlapVerdict(db: Db, b: Bundle, r: Replica, refused: set<int>, statement: Record)
    requires ValidBundle(b) && b.events != [] && b.fromCursor <= r.cursor == |r.events| && 0 < Overlap(r, b)
    requires r.eventHash == HashTextAt(r.events, |r.events|)
    ensures IsEquivocation(ImportAdmitted(db, b, r, refused, statement).1) <==> FirstDifference(r, b, 0) < Overlap(r, b)
  {
    if FirstDifference(r, b, 0) == Overlap(r, b) {
      NoLaterConflict(db, b, r, refused, statement);
    }
  }

  lemma {:induction false} HeadConflict(
    db: Db, b: Bundle, r: Replica, g: seq<Record>, refused: set<int>, statement: Record)
    requires ValidBundle(b) && ReplicaOk(b.originId, r) && CutFrom(b, g)
    requires b.events != [] && b.fromCursor == r.cursor
    ensures IsEquivocation(ImportAdmitted(db, b, r, refused, statement).1) <==>
              Records(r.events)[..r.cursor] != g[..r.cursor] || !WellSpelled(b)
  {
    var rs, m := Records(r.events), r.cursor;
    NoLaterConflict(db, b, r, refused, statement);
    LogHash(r.publicKey, r.events, m);
    assert ValidAt(b.originKey, b.fromCursor, b.events, 0);
    if HashOf(rs[..m]) == HashOf(g[..m]) {
      HashInjective(rs[..m], g[..m]);
    }
  }

  // --------------------------------------------------- evidence and reports

  /** What each kind of evidence says about the stored log and the bundle. */
  ghost predicate Tells(e: Evidence, stored: seq<OriginEvent>, b: Bundle)
  {
    match e.kind
    case EventSequence =>
      && 0 <= b.fromCursor < e.cursor <= |stored| && e.cursor <= b.fromCursor + |b.events|
      && e.existing == stored[e.cursor - 1].eventHash
      && e.incoming == b.events[e.cursor - b.fromCursor - 1].eventHash
      && forall s :: b.fromCursor <= s < e.cursor - 1 ==> SameAt(stored, b, s)
    case ChainFork =>
      && e.cursor == |stored| + 1 && 0 <= b.fromCursor <= |stored| < b.fromCursor + |b.events|
      && e.existing == HashTextAt(stored, |stored|)
      && e.incoming == b.events[|stored| - b.fromCursor].previousHash
    case CheckpointHash =>
      && b.events == [] && 0 <= e.cursor == b.throughCursor <= |stored|
      && e.existing == HashTextAt(stored, e.cursor)
      && e.incoming == b.checkpoint.eventHash
  }

  predicate SameAt(stored: seq<OriginEvent>, b: Bundle, s: int)
  {
    && 0 <= s < |stored| && 0 <= s - b.fromCursor < |b.events|
    && stored[s].eventHash == b.events[s - b.fromCursor].eventHash
  }

  lemma {:induction false} ScanTells(r: Replica, b: Bundle, refused: set<int>)
    requires ValidBundle(b) && b.fromCursor <= r.cursor == |r.events| && r.eventHash == HashTextAt(r.events, |r.events|)
    ensures var scanned := Scan(r, b, refused);
      scanned.Halted? && scanned.reason.Equivocation? ==> Tells(scanned.reason.evidence, r.events, b)
  {
    var n, d := Overlap(r, b), FirstDifference(r, b, 0);
    if d < n {
      assert ValidAt(b.originKey, b.fromCursor, b.events, d);
      forall s | b.fromCursor <= s < b.fromCursor + d
        ensures SameAt(r.events, b, s)
      {
        assert SameHash(r, b, s - b.fromCursor);
      }
    } else if n < |b.events| {
      assert ValidAt(b.originKey, b.fromCursor, b.events, n);
    }
  }

  /** The recorded evidence points at the first difference, with the stored hash and the one that contradicts it. */
  lemma {:induction false} EvidenceTells(db: Db, b: Bundle, refused: set<int>, statement: Record)
    requires Inv(db) && IsEquivocation(Import(db, b, refused, statement).1)
    ensures var e := Import(db, b, refused, statement).1.reason.evidence;
      e.origin == b.originId && Tells(e, RetainedLog(db, b.originId), b)
  {
    var r := Known(db, b);
    assert ReplicaOk(b.originId, r);
    ScanTells(r, b, refused);
    if b.events == [] {
      assert r.events + b.events[0..] == r.events;
    } else if FirstDifference(r, b, 0) == Overlap(r, b) {
      NoLaterConflict(db, b, r, refused, statement);
    }
  }

  /** What a successful import reports is what it did. */
  lemma {:induction false} ReportTells(db: Db, b: Bundle, refused: set<int>, statement: Record)
    requires Inv(db) && Import(db, b, refused, statement).1.Imported?
    ensures var (db', outcome) := Import(db, b, refused, statement);
      var before, now := RetainedLog(db, b.originId), RetainedLog(db', b.originId);
      && outcome.report.previouslyKnownCursor == |before| && outcome.report.currentCursor == |now|
      && outcome.report.importedEvents == |now| - |before|
      && outcome.report.currentHash == HashTextAt(now, |now|)
      && (outcome.report.witnessSequence.Some? <==> !AllWitnesses(b.events[Overlap(Known(db, b), b)..]))
  {
    var r := Known(db, b);
    assert ReplicaOk(b.originId, r);
    ImportedShape(db, b, refused, statement);
    AdmittedShape(db, b, r, refused, statement);
  }
}
