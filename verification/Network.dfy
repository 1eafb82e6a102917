/**
  Runs of a network of honest nodes that append to their own logs and import
  whatever bundles anybody hands them.  Bundles may be relayed, repeated,
  overlapping or re-sliced, and other origins may sign anything; the one thing
  nobody can do is put an honest node's signature under a checkpoint it did not
  issue.
*/
module Network {
  import opened Common
  import opened Chain
  import opened Replica
  import opened ImportSafety
  import opened Relay

  datatype Step =
    | Append(node: nat, record: Record)
    | Deliver(node: nat, bundle: Bundle, refused: set<int>, statement: Record)

  function Id(db: Db): NodeId { NodeIdOf(db.key) }

  /** What an honest node's key has signed about a log: a cursor, and the hash at it. */
  predicate SignedTruly(s: Signature, log: seq<OriginEvent>)
    requires s.OnCheckpoint?
  {
    0 <= s.cursor <= |log| && s.eventHash == HashTextAt(log, s.cursor)
  }

  /** Signatures cannot be forged: one by an honest node's key is on a checkpoint of a prefix of its log. */
  ghost predicate Unforged(net: seq<Db>, b: Bundle)
  {
    var s := b.checkpoint.signature;
    s.OnCheckpoint? ==> forall m :: 0 <= m < |net| && net[m].key == s.key ==> SignedTruly(s, net[m].log)
  }

  /** So whatever verifies under an honest node's name is genuine. */
  lemma {:induction false} VerifiedIsGenuine(net: seq<Db>, b: Bundle, m: nat)
    requires Unforged(net, b) && m < |net| && ValidBundle(b) && b.originId == Id(net[m])
    ensures Genuine(b.checkpoint, net[m].log)
  {
  }

  /** Witness events come from imports only; other operations append other kinds. */
  ghost predicate Enabled(net: seq<Db>, step: Step)
  {
    && step.node < |net|
    && match step
       case Append(_, record) => record.kind != WITNESS_KIND
       case Deliver(_, b, _, statement) => Unforged(net, b) && statement.kind == WITNESS_KIND
  }

  ghost function Apply(db: Db, step: Step): Db
    requires Shaped(db)
  {
    match step
    case Append(_, record) =>
      if Appendable(db.log, record) then db.(log := Appended(db.key, db.log, record)) else db
    case Deliver(_, b, refused, statement) => Import(db, b, refused, statement).0
  }

  ghost predicate NodesOk(net: seq<Db>)
  {
    && (forall n :: 0 <= n < |net| ==> NodeOk(net, n))
    && (forall n, m :: 0 <= n < m < |net| ==> KeysDiffer(net, n, m))
  }

  ghost predicate NodeOk(net: seq<Db>, n: int)
    requires 0 <= n < |net|
  {
    Inv(net[n])
  }

  predicate KeysDiffer(net: seq<Db>, n: int, m: int)
    requires 0 <= n < |net| && 0 <= m < |net|
  {
    net[n].key != net[m].key
  }

  ghost predicate PrefixesRetained(net: seq<Db>)
  {
    forall n, m :: 0 <= n < |net| && 0 <= m < |net| ==> PrefixAt(net, n, m)
  }

  predicate PrefixAt(net: seq<Db>, n: int, m: int)
    requires 0 <= n < |net| && 0 <= m < |net|
  {
    RetainedLog(net[n], Id(net[m])) <= net[m].log
  }

  ghost predicate Accused(n: Db, origin: NodeId)
  {
    exists e :: e in n.evidence && e.origin == origin
  }

  ghost predicate NobodyAccused(net: seq<Db>)
  {
    forall n, m :: 0 <= n < |net| && 0 <= m < |net| ==> !AccusedAt(net, n, m)
  }

  ghost predicate AccusedAt(net: seq<Db>, n: int, m: int)
    requires 0 <= n < |net| && 0 <= m < |net|
  {
    Accused(net[n], Id(net[m]))
  }

  /** One enabled step; an import needs tables whose peer rows count the events they have. */
  ghost predicate Takes(net: seq<Db>, step: Step, net': seq<Db>)
  {
    && Enabled(net, step) && Shaped(net[step.node])
    && net' == net[step.node := Apply(net[step.node], step)]
  }

  ghost predicate TakesAt(nets: seq<seq<Db>>, steps: seq<Step>, i: int)
    requires 0 <= i < |steps| && |nets| == |steps| + 1
  {
    Takes(nets[i], steps[i], nets[i + 1])
  }

  /** A run: the states of the network before, between and after the steps. */
  ghost predicate IsRun(nets: seq<seq<Db>>, steps: seq<Step>)
  {
    |nets| == |steps| + 1 && forall i :: 0 <= i < |steps| ==> TakesAt(nets, steps, i)
  }

  ghost predicate Initial(net: seq<Db>)
  {
    && (forall n :: 0 <= n < |net| ==> net[n].key.Ed25519? && net[n] == Db(net[n].key, [], map[], {}, map[], []))
    && (forall n, m :: 0 <= n < m < |net| ==> KeysDiffer(net, n, m))
  }

  // ------------------------------------------------------------ one delivery

  /** What an honest origin's retained log becomes, and exactly when the origin is accused. */
  lemma {:induction false} HonestImport(db: Db, b: Bundle, log: seq<OriginEvent>, refused: set<int>, statement: Record)
    requires Inv(db) && IsLog(b.originKey, log) && RetainedLog(db, b.originId) <= log
    requires ValidBundle(b) && Genuine(b.checkpoint, log)
    requires b.originId != NodeIdOf(db.key) && b.fromCursor <= |RetainedLog(db, b.originId)|
    ensures var (db', outcome) := Import(db, b, refused, statement);
      && (IsEquivocation(outcome) <==> b.fromCursor == |RetainedLog(db, b.originId)| && !WellSpelled(b))
      && (outcome.Imported? ==> b.originId in db'.replicas && db'.replicas[b.originId].events <= log)
  {
    AdmissionIff(db, b);
    assert ReplicaOk(b.originId, Known(db, b));
    HonestVerdict(db, b, log, refused, statement);
    if Import(db, b, refused, statement).1.Imported? {
      ImportedShape(db, b, refused, statement);
      GenuineBundleIsCut(b, log);
      NewsAreTheLogs(Known(db, b), b, log);
    }
  }

  lemma {:induction false} HonestVerdict(db: Db, b: Bundle, log: seq<OriginEvent>, refused: set<int>, statement: Record)
    requires Inv(db) && IsLog(b.originKey, log)
    requires Admission(db, b).None? && Genuine(b.checkpoint, log)
    requires Known(db, b).events <= log
    ensures IsEquivocation(Import(db, b, refused, statement).1) <==> Misspelled(b, Known(db, b))
  {
    AdmissionIff(db, b);
    var r := Known(db, b);
    var m := Min(r.cursor, b.throughCursor);
    GenuineBundleIsCut(b, log);
    assert ReplicaOk(b.originId, r);
    assert Records(r.events)[..m] == Records(log)[..b.throughCursor][..m];
    ForkDetection(db, b, Records(log)[..b.throughCursor], refused, statement);
  }

  /**
    Every bundle of an honest log that starts anywhere at or below the retained
    head is taken, if it is spelled as the log is and no projection refuses it,
    and the copy then reaches as far as the longer of the two.
  */
  lemma {:induction false} HonestBundleImported(
    db: Db, b: Bundle, log: seq<OriginEvent>, refused: set<int>, statement: Record)
    requires Inv(db) && IsLog(b.originKey, log) && RetainedLog(db, b.originId) <= log
    requires ValidBundle(b) && Genuine(b.checkpoint, log) && WellSpelled(b)
    requires b.originId != NodeIdOf(db.key) && b.fromCursor <= |RetainedLog(db, b.originId)|
    requires forall i :: 0 <= i < |b.events| && b.events[i].sequence > |RetainedLog(db, b.originId)| ==>
      b.events[i].sequence !in refused
    requires |statement.canonical| <= MAX_CANONICAL_OBJECT_BYTES
    ensures var (db', outcome) := Import(db, b, refused, statement);
      && outcome.Imported?
      && var head := |RetainedLog(db, b.originId)|;
      RetainedLog(db', b.originId) == log[..if head < b.throughCursor then b.throughCursor else head]
  {
    AdmissionIff(db, b);
    var r := Known(db, b);
    assert ReplicaOk(b.originId, r);
    HonestImport(db, b, log, refused, statement);
    forall i | Overlap(r, b) <= i < |b.events|
      ensures b.events[i].sequence !in refused
    {
      assert ValidAt(b.originKey, b.fromCursor, b.events, i);
    }
    AdmittedUnlessRefused(db, b, r, refused, statement);
    ImportedShape(db, b, refused, statement);
  }

  lemma {:induction false} NewsAreTheLogs(r: Replica, b: Bundle, log: seq<OriginEvent>)
    requires ValidBundle(b) && IsLog(b.originKey, log) && b.throughCursor <= |log|
    requires CutFrom(b, Records(log)[..b.throughCursor])
    requires b.fromCursor <= r.cursor == |r.events| && r.events <= log
    requires !Misspelled(b, r)
    ensures r.events + b.events[Overlap(r, b)..] <= log
  {
    var n := Overlap(r, b);
    forall i | n <= i < |b.events|
      ensures b.events[i] == log[b.fromCursor + i]
    {
      CutEvents(b, log, i);
    }
  }

  // -------------------------------------------------------------- one step

  ghost predicate NetInv(net: seq<Db>)
  {
    NodesOk(net) && PrefixesRetained(net)
  }

  /** The guard of the branch that accuses: a verified continuation that misspells the hash of the stored head. */
  ghost predicate Frames(db: Db, step: Step, origin: NodeId)
  {
    && step.Deliver? && step.bundle.originId == origin && origin != Id(db)
    && ValidBundle(step.bundle)
    && step.bundle.fromCursor == |RetainedLog(db, origin)| && !WellSpelled(step.bundle)
  }

  ghost predicate FramesSomebody(net: seq<Db>, step: Step)
    requires step.node < |net|
  {
    exists m :: 0 <= m < |net| && FramesNode(net, step, m)
  }

  ghost predicate FramesNode(net: seq<Db>, step: Step, m: int)
    requires step.node < |net| && 0 <= m < |net|
  {
    Frames(net[step.node], step, Id(net[m]))
  }

  lemma {:induction false} ApplyKeepsNode(db: Db, step: Step)
    requires Inv(db)
    ensures Inv(Apply(db, step))
    ensures Apply(db, step).key == db.key
    ensures db.log <= Apply(db, step).log
  {
    match step
    case Append(_, record) =>
      if Appendable(db.log, record) {
        AppendKeepsLog(db.key, db.log, record);
      }
    case Deliver(_, b, refused, statement) =>
      ImportKeepsInv(db, b, refused, statement);
      if Import(db, b, refused, statement).1.Imported? {
        ImportedShape(db, b, refused, statement);
      } else {
        FailureIsHarmless(db, b, refused, statement);
      }
  }

  /** A step keeps what its node retains of `m` a prefix, and accuses `m` exactly if it frames it. */
  lemma {:induction false} ApplyOnOrigin(net: seq<Db>, step: Step, m: nat)
    requires NetInv(net) && Enabled(net, step) && Shaped(net[step.node]) && m < |net|
    ensures var db' := Apply(net[step.node], step);
      && RetainedLog(db', Id(net[m])) <= net[m].log
      && (Accused(db', Id(net[m])) <==> Accused(net[step.node], Id(net[m])) || Frames(net[step.node], step, Id(net[m])))
  {
    var db := net[step.node];
    assert PrefixAt(net, step.node, m) && NodeOk(net, step.node) && NodeOk(net, m);
    if step.Deliver? {
      if ValidBundle(step.bundle) && step.bundle.originId == Id(net[m]) {
        VerifiedIsGenuine(net, step.bundle, m);
      }
      DeliverOnOrigin(db, step.bundle, net[m], step.refused, step.statement);
    }
  }

  /** A bundle of one origin touches neither the rows of another nor the evidence against it. */
  lemma {:induction false} DeliverOnOther(db: Db, b: Bundle, o: NodeId, refused: set<int>, statement: Record)
    requires Inv(db) && b.originId != o
    ensures var db' := Import(db, b, refused, statement).0;
      && (o in db'.replicas <==> o in db.replicas) && (o in db.replicas ==> db'.replicas[o] == db.replicas[o])
      && (Accused(db', o) <==> Accused(db, o))
  {
    if Import(db, b, refused, statement).1.Imported? {
      ImportedShape(db, b, refused, statement);
    } else {
      FailureIsHarmless(db, b, refused, statement);
    }
  }

  /** A bundle that ends before its events are looked at leaves no trace. */
  lemma {:induction false} NotAdmitted(db: Db, b: Bundle, refused: set<int>, statement: Record)
    requires Inv(db) && Admission(db, b).Some?
    ensures Import(db, b, refused, statement).0 == db
  {
  }

  lemma {:induction false} AdmittedOnOrigin(db: Db, b: Bundle, origin: Db, refused: set<int>, statement: Record)
    requires Inv(db) && Inv(origin) && RetainedLog(db, Id(origin)) <= origin.log
    requires Admission(db, b).None? && b.originId == Id(origin) && Genuine(b.checkpoint, origin.log)
    ensures var db' := Import(db, b, refused, statement).0;
      && RetainedLog(db', Id(origin)) <= origin.log
      && (Accused(db', Id(origin)) <==>
            Accused(db, Id(origin)) || (b.fromCursor == |RetainedLog(db, Id(origin))| && !WellSpelled(b)))
  {
    var (db', outcome) := Import(db, b, refused, statement);
    AdmissionIff(db, b);
    HonestImport(db, b, origin.log, refused, statement);
    if outcome.Imported? {
      ImportedShape(db, b, refused, statement);
    } else {
      FailureIsHarmless(db, b, refused, statement);
      if IsEquivocation(outcome) {
        assert outcome.reason.evidence in db'.evidence;
      }
    }
  }

  lemma {:induction false} DeliverOnOrigin(db: Db, b: Bundle, origin: Db, refused: set<int>, statement: Record)
    requires Inv(db) && Inv(origin) && RetainedLog(db, Id(origin)) <= origin.log
    requires ValidBundle(b) && b.originId == Id(origin) ==> Genuine(b.checkpoint, origin.log)
    ensures var db' := Import(db, b, refused, statement).0; var o := Id(origin);
      && RetainedLog(db', Id(origin)) <= origin.log
      && (Accused(db', o) <==> Accused(db, o) || Frames(db, Deliver(0, b, refused, statement), o))
  {
    AdmissionIff(db, b);
    if Admission(db, b).Some? {
      NotAdmitted(db, b, refused, statement);
    } else if b.originId == Id(origin) {
      AdmittedOnOrigin(db, b, origin, refused, statement);
    } else {
      DeliverOnOther(db, b, Id(origin), refused, statement);
    }
  }

  lemma {:induction false} PairKept(net: seq<Db>, step: Step, net': seq<Db>, n: nat, m: nat)
    requires NetInv(net) && Takes(net, step, net') && n < |net| && m < |net|
    ensures PrefixAt(net', n, m)
    ensures AccusedAt(net', n, m) <==> AccusedAt(net, n, m) || (n == step.node && FramesNode(net, step, m))
  {
    assert NodeOk(net, step.node);
    ApplyKeepsNode(net[step.node], step);
    assert PrefixAt(net, n, m);
    if n == step.node {
      ApplyOnOrigin(net, step, m);
    }
  }

  lemma {:induction false} StepKeepsNodes(net: seq<Db>, step: Step, net': seq<Db>)
    requires NodesOk(net) && Takes(net, step, net')
    ensures NodesOk(net') && |net'| == |net|
  {
    assert NodeOk(net, step.node);
    ApplyKeepsNode(net[step.node], step);
    forall n | 0 <= n < |net|
      ensures NodeOk(net', n)
    {
      assert NodeOk(net, n);
    }
    forall n, m | 0 <= n < m < |net|
      ensures KeysDiffer(net', n, m)
    {
      assert KeysDiffer(net, n, m);
    }
  }

  lemma {:induction false} StepKeepsPrefixes(net: seq<Db>, step: Step, net': seq<Db>)
    requires NetInv(net) && Takes(net, step, net')
    ensures NetInv(net') && |net'| == |net|
  {
    StepKeepsNodes(net, step, net');
    forall n, m | 0 <= n < |net'| && 0 <= m < |net'|
      ensures PrefixAt(net', n, m)
    {
      PairKept(net, step, net', n, m);
    }
  }

  lemma {:induction false} StepAccuses(net: seq<Db>, step: Step, net': seq<Db>)
    requires NetInv(net) && Takes(net, step, net')
    ensures NobodyAccused(net') <==> NobodyAccused(net) && !FramesSomebody(net, step)
  {
    forall n, m | 0 <= n < |net| && 0 <= m < |net|
      ensures AccusedAt(net', n, m) <==> AccusedAt(net, n, m) || (n == step.node && FramesNode(net, step, m))
    {
      PairKept(net, step, net', n, m);
    }
    assert forall m | 0 <= m < |net| && FramesNode(net, step, m) :: AccusedAt(net', step.node, m);
  }

  lemma {:induction false} StepKeepsNet(net: seq<Db>, step: Step, net': seq<Db>)
    requires NetInv(net) && Takes(net, step, net')
    ensures NetInv(net') && |net'| == |net|
    ensures NobodyAccused(net') <==> NobodyAccused(net) && !FramesSomebody(net, step)
  {
    StepKeepsPrefixes(net, step, net');
    StepAccuses(net, step, net');
  }

  // --------------------------------------------------------------- all runs

  ghost predicate FramesAt(nets: seq<seq<Db>>, steps: seq<Step>, i: int)
    requires 0 <= i < |steps| && |nets| == |steps| + 1
  {
    steps[i].node < |nets[i]| && FramesSomebody(nets[i], steps[i])
  }

  /** None of the first `k` steps frames anybody. */
  ghost predicate FramelessUpTo(nets: seq<seq<Db>>, steps: seq<Step>, k: int)
    requires k <= |steps| && |nets| == |steps| + 1
  {
    forall i :: 0 <= i < k ==> !FramesAt(nets, steps, i)
  }

  lemma {:induction false} RunKeepsNet(nets: seq<seq<Db>>, steps: seq<Step>, k: nat)
    requires IsRun(nets, steps) && NetInv(nets[0]) && k <= |steps|
    ensures NetInv(nets[k]) && |nets[k]| == |nets[0]|
    ensures NobodyAccused(nets[k]) <==> NobodyAccused(nets[0]) && FramelessUpTo(nets, steps, k)
  {
    if k > 0 {
      RunKeepsNet(nets, steps, k - 1);
      assert TakesAt(nets, steps, k - 1);
      StepKeepsNet(nets[k - 1], steps[k - 1], nets[k]);
      assert FramelessUpTo(nets, steps, k) <==> FramelessUpTo(nets, steps, k - 1) && !FramesAt(nets, steps, k - 1);
    }
  }

  /** A run goes on with any enabled step: the shape `Takes` asks for always holds and never cuts a run short. */
  lemma {:induction false} RunExtends(nets: seq<seq<Db>>, steps: seq<Step>, step: Step)
    requires IsRun(nets, steps) && NetInv(nets[0]) && Enabled(nets[|steps|], step)
    ensures var net := nets[|steps|];
      && Shaped(net[step.node])
      && IsRun(nets + [net[step.node := Apply(net[step.node], step)]], steps + [step])
  {
    var net := nets[|steps|];
    RunKeepsNet(nets, steps, |steps|);
    assert NodeOk(net, step.node);
    var nets', steps' := nets + [net[step.node := Apply(net[step.node], step)]], steps + [step];
    forall i | 0 <= i < |steps'|
      ensures TakesAt(nets', steps', i)
    {
      assert i < |steps| ==> TakesAt(nets, steps, i);
    }
  }

  lemma {:induction false} InitialOk(net: seq<Db>)
    requires Initial(net)
    ensures NetInv(net) && NobodyAccused(net)
  {
    assert forall n | 0 <= n < |net| :: NodeOk(net, n);
  }

  /**
    At every moment of every run, whatever is retained of an honest node is a
    prefix of its log; and no honest node stands accused of equivocation by
    anybody exactly if no delivery so far was a continuation that misspells the
    stored head's hash.
  */
  lemma {:induction false} NoFalseAccusation(nets: seq<seq<Db>>, steps: seq<Step>, k: nat)
    requires IsRun(nets, steps) && Initial(nets[0]) && k <= |steps|
    ensures PrefixesRetained(nets[k])
    ensures NobodyAccused(nets[k]) <==> FramelessUpTo(nets, steps, k)
  {
    InitialOk(nets[0]);
    RunKeepsNet(nets, steps, k);
  }

  /** A sufficient check that needs no state: every bundle spells its first previous hash in lower case. */
  lemma {:induction false} WellSpelledRunsFrameNobody(nets: seq<seq<Db>>, steps: seq<Step>)
    requires IsRun(nets, steps) && Initial(nets[0])
    requires forall i :: 0 <= i < |steps| && steps[i].Deliver? ==> WellSpelled(steps[i].bundle)
    ensures NobodyAccused(nets[|steps|])
  {
    assert FramelessUpTo(nets, steps, |steps|);
    NoFalseAccusation(nets, steps, |steps|);
  }

  /** The bundle with its first event's previous hash in the other letter case. */
  function Respelled(b: Bundle): Bundle
    requires b.events != [] && b.events[0].previousHash.Hex?
  {
    var first := b.events[0];
    b.(events := [first.(previousHash := Hex(first.previousHash.digest, 1))] + b.events[1..])
  }

  lemma {:induction false} RespelledVerifies(b: Bundle)
    requires ValidBundle(b) && b.fromCursor > 0 && b.events != []
    ensures b.events[0].previousHash.Hex? && ValidBundle(Respelled(b)) && !WellSpelled(Respelled(b))
  {
    assert ValidAt(b.originKey, b.fromCursor, b.events, 0);
    var b' := Respelled(b);
    forall i | 0 <= i < |b'.events|
      ensures ValidAt(b'.originKey, b'.fromCursor, b'.events, i) && (0 < i ==> LinkedAt(b'.events, i))
    {
      assert ValidAt(b.originKey, b.fromCursor, b.events, i);
      assert 0 < i ==> LinkedAt(b.events, i);
    }
  }

  /**
    Such a bundle is always at hand: at any node that retains a proper, non-empty part of
    an honest log, the next bundle with its first previous hash respelled is
    verified and unforged, and gets the honest origin accused.
  */
  lemma {:induction false} RespelledBundleAccuses(
    db: Db, origin: Db, limit: nat, refused: set<int>, statement: Record)
    returns (b: Bundle)
    requires Inv(db) && Inv(origin) && Id(origin) in db.replicas
    requires var es := db.replicas[Id(origin)].events; es <= origin.log && 0 < |es| < |origin.log|
    ensures ValidBundle(b) && b.originId == Id(origin) && Genuine(b.checkpoint, origin.log)
    ensures Accused(Import(db, b, refused, statement).0, Id(origin))
  {
    var r := db.replicas[Id(origin)];
    assert ReplicaOk(Id(origin), r);
    OriginServes(origin, r.cursor, limit, 0);
    var served := FederationBundle(origin, r.cursor, limit, 0).value;
    RespelledVerifies(served);
    b := Respelled(served);
    AdmittedOnOrigin(db, b, origin, refused, statement);
  }
}
