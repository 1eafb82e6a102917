/** The pull loop of src/main.rs against a fixed origin or relay. */
module Mirror {
  import opened Common
  import opened Chain
  import opened Replica
  import opened ImportSafety
  import opened Relay
  import opened Network
  import opened Transaction

  /**
    The peer that answers: an origin serving its own log, under checkpoints
    stamped with a new clock reading per answer, or a relay serving a log it
    retains.
  */
  datatype Source = FromOrigin(db: Db, clock: nat -> int) | FromRelay(db: Db, origin: NodeId)

  datatype SyncReport = SyncReport(caughtUp: bool, cursor: int, importedEvents: int, pages: nat)

  datatype SyncError = FetchFailed(error: Error) | ImportFailed(reason: Failure) | Bail

  function Fetch(source: Source, answer: nat, after: int, limit: nat): Result<Bundle, Error>
  {
    match source
    case FromOrigin(db, clock) => FederationBundle(db, after, limit, clock(answer))
    case FromRelay(db, origin) => RelayedBundle(db, origin, after, limit)
  }

  /** The source holds a log to serve at all. */
  predicate Serving(source: Source)
  {
    source.FromRelay? ==> source.origin in source.db.replicas
  }

  function Served(source: Source): seq<OriginEvent>
    requires Serving(source)
  {
    if source.FromOrigin? then source.db.log else source.db.replicas[source.origin].events
  }

  function ServedKey(source: Source): PublicKey
    requires Serving(source)
  {
    if source.FromOrigin? then source.db.key else source.db.replicas[source.origin].publicKey
  }

  function ServedId(source: Source): NodeId
    requires Serving(source)
  {
    NodeIdOf(ServedKey(source))
  }

  lemma {:induction false} SourceServes(source: Source, answer: nat, after: int, limit: nat)
    requires Inv(source.db)
    ensures var page := Fetch(source, answer, after, limit);
      if Serving(source) && 0 <= after <= |Served(source)| then
        page.Ok? && Serves(ServedKey(source), Served(source), after, page.value)
      else page.Err?
    ensures Serving(source) ==> IsLog(ServedKey(source), Served(source)) && ServedKey(source).Ed25519?
  {
    match source
    case FromOrigin(db, clock) => OriginServes(db, after, limit, clock(answer));
    case FromRelay(db, origin) =>
      RelayServes(db, origin, after, limit);
      if origin in db.replicas {
        assert ReplicaOk(origin, db.replicas[origin]);
      }
  }

  function RetainedCursor(db: Db, o: NodeId): int
  {
    if o in db.replicas then db.replicas[o].cursor else 0
  }

  lemma {:induction false} SameHeadSameLog(key: PublicKey, r: Replica, log: seq<OriginEvent>)
    requires ReplicaOk(NodeIdOf(key), r) && IsLog(key, log)
    requires |r.events| == |log| && HashTextAt(r.events, |log|) == HashTextAt(log, |log|)
    ensures r.events == log
  {
    HeadPinsLog(key, r.events, log, |log|);
    assert log[..|log|] == log && r.events[..|log|] == r.events;
  }

  /** Importing the page served at one's own head moves the head to the page's end. */
  lemma {:induction false} PageImported(
    db: Db, b: Bundle, key: PublicKey, log: seq<OriginEvent>, after: int, refused: set<int>, statement: Record)
    requires Inv(db) && IsLog(key, log) && Serves(key, log, after, b) && after == RetainedCursor(db, NodeIdOf(key))
    requires Import(db, b, refused, statement).1.Imported?
    ensures var (db', outcome) := Import(db, b, refused, statement); var o := NodeIdOf(key);
      && o in db'.replicas &&
        outcome.report.currentCursor == db'.replicas[o].cursor == |db'.replicas[o].events| == b.throughCursor
      && db'.replicas[o].events == RetainedLog(db, o) + b.events
      && outcome.report.importedEvents == |b.events|
      && (forall i :: 0 <= i < |b.events| ==> b.events[i].sequence !in refused)
      && (b.events == [] ==> db'.replicas[o].events == log)
  {
    var o := NodeIdOf(key);
    ImportKeepsInv(db, b, refused, statement);
    ImportedShape(db, b, refused, statement);
    AdmittedShape(db, b, Known(db, b), refused, statement);
    var db' := Import(db, b, refused, statement).0;
    assert b.events[0..] == b.events;
    if b.events == [] {
      SameHeadSameLog(key, db'.replicas[o], log);
    }
  }

  /**
    A served page is spelled as its log is, holds the log's sequences, and
    extends any copy that ends where it starts.
  */
  lemma {:induction false} PageOfLog(
    key: PublicKey, log: seq<OriginEvent>, b: Bundle, after: int, copy: seq<OriginEvent>, refused: set<int>)
    requires IsLog(key, log) && Serves(key, log, after, b) && copy <= log && |copy| == after
    requires forall i :: 0 <= i < |log| ==> log[i].sequence !in refused
    ensures WellSpelled(b)
    ensures forall i :: 0 <= i < |b.events| ==> b.events[i].sequence !in refused
    ensures copy + b.events <= log
  {
    if b.events != [] {
      assert SealedAt(key, log, after);
    }
    forall i | 0 <= i < |b.events|
      ensures b.events[i].sequence !in refused
    {
      assert b.events[i] == log[after + i];
    }
  }

  /** A page served to a reader whose copy is a prefix is always imported, unless the projections refuse an event. */
  lemma {:induction false} PageAccepted(
    db: Db, b: Bundle, key: PublicKey, log: seq<OriginEvent>, after: int, refused: set<int>, statement: Record)
    requires Inv(db) && key.Ed25519? && IsLog(key, log) && Serves(key, log, after, b)
    requires after == RetainedCursor(db, NodeIdOf(key)) && NodeIdOf(key) != NodeIdOf(db.key)
    requires RetainedLog(db, NodeIdOf(key)) <= log
    requires |statement.canonical| <= MAX_CANONICAL_OBJECT_BYTES
    requires forall i :: 0 <= i < |log| ==> log[i].sequence !in refused
    ensures Import(db, b, refused, statement).1.Imported?
    ensures RetainedLog(db, NodeIdOf(key)) + b.events <= log
  {
    var r := Known(db, b);
    assert ReplicaOk(b.originId, r);
    PageOfLog(key, log, b, after, r.events, refused);
    HonestVerdict(db, b, log, refused, statement);
    AdmittedUnlessRefused(db, b, r, refused, statement);
  }

  /** Nothing keeps a reader from following the source: its copy is a prefix and no projection refuses an event. */
  ghost predicate Ready(db: Db, source: Source, refused: set<int>)
    requires Serving(source)
  {
    && RetainedLog(db, ServedId(source)) <= Served(source)
    && (forall i :: 0 <= i < |Served(source)| ==> Served(source)[i].sequence !in refused)
  }

  /** The reader retains the source's log, under the head that sums it up. */
  predicate CaughtUp(db: Db, source: Source)
    requires Serving(source)
  {
    var o := ServedId(source);
    && o in db.replicas && db.replicas[o].events == Served(source)
    && db.replicas[o].eventHash == HashTextAt(Served(source), |Served(source)|)
  }

  /** The log got longer by events that no projection refused. */
  predicate TakesUnrefused(before: seq<OriginEvent>, after: seq<OriginEvent>, refused: set<int>)
  {
    before <= after && forall i :: |before| <= i < |after| ==> after[i].sequence !in refused
  }

  lemma {:induction false} UnrefusedTransitive(
    a: seq<OriginEvent>, b: seq<OriginEvent>, c: seq<OriginEvent>, refused: set<int>)
    requires TakesUnrefused(a, b, refused) && TakesUnrefused(b, c, refused)
    ensures TakesUnrefused(a, c, refused)
  {
  }

  lemma {:induction false} UnrefusedPage(a: seq<OriginEvent>, page: seq<OriginEvent>, refused: set<int>)
    requires forall i :: 0 <= i < |page| ==> page[i].sequence !in refused
    ensures TakesUnrefused(a, a + page, refused)
  {
  }

  function PageSize(source: Source, answer: nat, after: int, limit: nat): nat
  {
    var page := Fetch(source, answer, after, limit);
    if page.Ok? then |page.value.events| else 0
  }

  /** So many pages from an origin took so many events, or all there were. */
  predicate Filled(source: Source, start: int, cursor: int, pages: nat, limit: nat)
  {
    source.FromOrigin? && pages > 0 ==> cursor == Min(|source.db.log|, start + Times(pages, limit))
  }

  lemma {:induction false} FilledNext(source: Source, start: int, cursor: int, pages: nat, limit: nat)
    requires 1 <= limit <= 500 && Inv(source.db) && Serving(source) && 0 <= cursor <= |Served(source)|
    requires Filled(source, start, cursor, pages, limit) && (pages == 0 ==> cursor == start)
    ensures Filled(source, start, cursor + PageSize(source, pages + 1, cursor, limit), pages + 1, limit)
  {
    if source.FromOrigin? {
      OriginServes(source.db, cursor, limit, source.clock(pages + 1));
    }
  }

  /** Rust's `max(1)`. */
  function AtLeastOne(n: nat): (m: nat)
    ensures m >= 1 && m >= n && (m == 1 || m == n)
  {
    if n < 1 then 1 else n
  }

  datatype Pulled = Pulled(imported: int, cursor: int, last: bool)

  /**
    Where the loop stands after some pages: at the retained head, having counted
    what was added since `before`, all of it unrefused and, from an origin, in
    full pages as long as there were events.
  */
  ghost predicate Pulling(
    source: Source, before: Db, db: Db, refused: set<int>, cursor: int, imported: int, pages: nat, limit: nat)
    requires Serving(source)
  {
    var o := ServedId(source);
    && cursor == RetainedCursor(db, o) && imported == cursor - RetainedCursor(before, o)
    && (pages == 0 ==> imported == 0)
    && Filled(source, RetainedCursor(before, o), cursor, pages, limit)
    && TakesUnrefused(RetainedLog(before, o), RetainedLog(db, o), refused)
  }

  lemma {:induction false} PullingNext(
    source: Source, before: Db, db: Db, db': Db, refused: set<int>, cursor: int, imported: int, pages: nat, limit: nat,
    pulled: Pulled)
    requires Serving(source) && Inv(source.db) && 1 <= limit <= 500 && 0 <= cursor <= |Served(source)|
    requires Pulling(source, before, db, refused, cursor, imported, pages, limit)
    requires pulled.cursor == RetainedCursor(db', ServedId(source)) && pulled.imported == pulled.cursor - cursor
    requires pulled.imported == PageSize(source, pages + 1, cursor, limit)
    requires TakesUnrefused(RetainedLog(db, ServedId(source)), RetainedLog(db', ServedId(source)), refused)
    ensures Pulling(source, before, db', refused, pulled.cursor, imported + pulled.imported, pages + 1, limit)
  {
    var o := ServedId(source);
    FilledNext(source, RetainedCursor(before, o), cursor, pages, limit);
    UnrefusedTransitive(RetainedLog(before, o), RetainedLog(db, o), RetainedLog(db', o), refused);
  }

  /** One round of the pull loop: fetch the page at the cursor, check whose it is, import it. */
  method PullPage(
    node: Node, source: Source, answer: nat, origin: NodeId, originKey: PublicKey, cursor: int, limit: nat,
    refused: set<int>, statement: Record)
    returns (r: Result<Pulled, SyncError>)
    requires Inv(node.State()) && Inv(source.db) && Serving(source)
    requires origin == ServedId(source) && originKey == ServedKey(source) && origin != NodeIdOf(node.key)
    requires cursor == RetainedCursor(node.State(), origin)
    modifies node
    ensures Inv(node.State())
    ensures r.Ok? ==>
      && r.value.cursor == RetainedCursor(node.State(), origin) && r.value.imported == r.value.cursor - cursor
      && (!r.value.last ==> cursor < r.value.cursor <= |Served(source)|)
      && (r.value.last ==> CaughtUp(node.State(), source))
      && 0 <= cursor <= |Served(source)| && r.value.imported == PageSize(source, answer, cursor, limit)
      && TakesUnrefused(RetainedLog(old(node.State()), origin), RetainedLog(node.State(), origin), refused)
    ensures Ready(old(node.State()), source, refused) && |statement.canonical| <= MAX_CANONICAL_OBJECT_BYTES ==>
      r.Ok? && Ready(node.State(), source, refused)
  {
    ghost var before := node.State();
    SourceServes(source, answer, cursor, limit);
    assert origin in before.replicas ==> ReplicaOk(origin, before.replicas[origin]);
    var fetched := Fetch(source, answer, cursor, limit);
    if fetched.Err? { return Err(FetchFailed(fetched.error)); }
    var bundle := fetched.value;
    if bundle.originId != origin || bundle.originKey != originKey { return Err(Bail); }
    if bundle.fromCursor != cursor { return Err(Bail); }
    if Ready(before, source, refused) && |statement.canonical| <= MAX_CANONICAL_OBJECT_BYTES {
      PageAccepted(before, bundle, originKey, Served(source), cursor, refused, statement);
    }
    ImportKeepsInv(before, bundle, refused, statement);
    var outcome := node.ImportBundle(bundle, refused, statement);
    if outcome.Failed? { return Err(ImportFailed(outcome.reason)); }
    PageImported(before, bundle, originKey, Served(source), cursor, refused, statement);
    UnrefusedPage(RetainedLog(before, origin), bundle.events, refused);
    assert ReplicaOk(origin, node.replicas[origin]);
    return Ok(Pulled(outcome.report.importedEvents, outcome.report.currentCursor, |bundle.events| == 0));
  }

  /**
    What a report says: the pages were pulled as stated, a page limit was kept
    to and alone stopped the loop early, and having caught up means that the
    retained log and head are the source's.
  */
  ghost predicate Synced(
    source: Source, before: Db, db: Db, refused: set<int>, report: SyncReport, limit: nat, maxPages: Option<nat>)
    requires Serving(source)
  {
    && report.pages > 0
    && Pulling(source, before, db, refused, report.cursor, report.importedEvents, report.pages, limit)
    && (maxPages.Some? ==> report.pages <= AtLeastOne(maxPages.value))
    && (!report.caughtUp ==> maxPages.Some? && report.pages == AtLeastOne(maxPages.value))
    && (report.caughtUp ==> CaughtUp(db, source))
  }

  /** A round of the loop as the loop counts it. */
  method PullNext(
    node: Node, source: Source, origin: NodeId, originKey: PublicKey, cursor: int, imported: int, pages: nat,
    limit: nat, refused: set<int>, statement: Record, ghost before: Db)
    returns (r: Result<Pulled, SyncError>)
    requires Inv(node.State()) && Inv(source.db) && Serving(source) && 1 <= limit <= 500
    requires origin == ServedId(source) && originKey == ServedKey(source) && origin != NodeIdOf(node.key)
    requires Pulling(source, before, node.State(), refused, cursor, imported, pages, limit)
    modifies node
    ensures Inv(node.State())
    ensures r.Ok? ==>
      && Pulling(source, before, node.State(), refused, r.value.cursor, imported + r.value.imported, pages + 1, limit)
      && (!r.value.last ==> cursor < r.value.cursor <= |Served(source)|)
      && (r.value.last ==> CaughtUp(node.State(), source))
    ensures Ready(old(node.State()), source, refused) && |statement.canonical| <= MAX_CANONICAL_OBJECT_BYTES ==>
      r.Ok? && Ready(node.State(), source, refused)
  {
    ghost var db := node.State();
    r := PullPage(node, source, pages + 1, origin, originKey, cursor, limit, refused, statement);
    if r.Ok? {
      PullingNext(source, before, db, node.State(), refused, cursor, imported, pages, limit, r.value);
    }
  }

  /** The loop of `synchronize_peer`, once it knows whose log it pulls. */
  method PullPages(
    node: Node, source: Source, origin: NodeId, originKey: PublicKey, limit: nat, maxPages: Option<nat>,
    refused: set<int>, statements: nat -> Record)
    returns (r: Result<SyncReport, SyncError>)
    requires Inv(node.State()) && Inv(source.db) && Serving(source) && 1 <= limit <= 500
    requires origin == ServedId(source) && originKey == ServedKey(source) && origin != NodeIdOf(node.key)
    modifies node
    ensures Inv(node.State())
    ensures r.Ok? ==> Synced(source, old(node.State()), node.State(), refused, r.value, limit, maxPages)
    ensures
      && Ready(old(node.State()), source, refused)
      && (forall k: nat :: |statements(k).canonical| <= MAX_CANONICAL_OBJECT_BYTES) ==>
      r.Ok?
  {
    var cursor := RetainedCursor(node.State(), origin);
    var importedEvents, pages, caughtUp := 0, 0, false;
    ghost var before := node.State();
    ghost var ready := Ready(before, source, refused) &&
      forall k: nat :: |statements(k).canonical| <= MAX_CANONICAL_OBJECT_BYTES;
    while true
      invariant Inv(node.State())
      invariant Pulling(source, before, node.State(), refused, cursor, importedEvents, pages, limit)
      invariant maxPages.Some? ==> pages < AtLeastOne(maxPages.value)
      invariant ready ==> Ready(node.State(), source, refused)
      decreases |Served(source)| - cursor
    {
      var pulled := PullNext(
        node, source, origin, originKey, cursor, importedEvents, pages, limit, refused, statements(pages), before);
      if pulled.Err? { return Err(pulled.error); }
      importedEvents := importedEvents + pulled.value.imported;
      cursor := pulled.value.cursor;
      pages := pages + 1;
      if pulled.value.last {
        caughtUp := true;
        break;
      }
      if maxPages.Some? && pages >= AtLeastOne(maxPages.value) { break; }
    }
    return Ok(SyncReport(caughtUp, cursor, importedEvents, pages));
  }

  /**
    `synchronize_peer`.  It terminates even without a page limit.  A report of
    having caught up means the retained log is the source's, event for event,
    whatever was retained before and whatever the batch size.  Without a page
    limit that is what happens to every reader whose copy is a prefix.
    `statements` holds the witness that is signed anew for each page.
  */
  method Synchronize(
    node: Node, source: Source, batchSize: nat, maxPages: Option<nat>, refused: set<int>, statements: nat -> Record)
    returns (r: Result<SyncReport, SyncError>)
    requires Inv(node.State()) && Inv(source.db)
    modifies node
    ensures Inv(node.State())
    ensures r.Ok? ==> Serving(source)
    ensures r.Ok? ==>
      Synced(source, old(node.State()), node.State(), refused, r.value, Clamp(batchSize, 1, 500), maxPages)
    ensures
      && Serving(source) && ServedId(source) != NodeIdOf(node.key) && Ready(old(node.State()), source, refused)
      && (forall k: nat :: |statements(k).canonical| <= MAX_CANONICAL_OBJECT_BYTES) ==>
      r.Ok? && (maxPages.None? ==> r.value.caughtUp)
  {
    var limit := Clamp(batchSize, 1, MAX_FEDERATION_EVENTS);
    SourceServes(source, 0, 0, 1);
    var fetched := Fetch(source, 0, 0, 1);
    if fetched.Err? { return Err(FetchFailed(fetched.error)); }
    var probe := fetched.value;
    if probe.originId == NodeIdOf(node.key) { return Err(Bail); }
    r := PullPages(node, source, probe.originId, probe.originKey, limit, maxPages, refused, statements);
  }
}
