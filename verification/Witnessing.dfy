/**
  Checkpoint witnesses and import windows: every import of something other than
  witness events appends exactly one witness event and one window, and nothing
  else does.
*/
module Witnessing {
  import opened Common
  import opened Chain
  import opened Replica
  import opened ImportSafety
  import opened Network

  predicate Ordinary(e: OriginEvent) { e.record.kind != WITNESS_KIND }

  function WitnessCount(es: seq<OriginEvent>): nat
  {
    if es == [] then 0
    else WitnessCount(es[..|es| - 1]) + (if Ordinary(es[|es| - 1]) then 0 else 1)
  }

  predicate IsSubject(db: Db, o: NodeId, sequence: int)
  {
    && o in db.replicas && 1 <= sequence <= |db.replicas[o].events|
    && Ordinary(db.replicas[o].events[sequence - 1])
  }

  /** The ordinary events a node has imported, by origin and sequence. */
  ghost function Subjects(db: Db): (subjects: set<(NodeId, int)>)
    ensures forall o, s :: (o, s) in subjects <==> IsSubject(db, o, s)
  {
    set o, s | o in db.replicas && 1 <= s <= |db.replicas[o].events| && IsSubject(db, o, s) :: (o, s)
  }

  predicate Covers(w: Window, o: NodeId, sequence: int)
  {
    w.origin == o && w.from < sequence <= w.through
  }

  predicate WindowOk(db: Db, w: Window)
  {
    && w.origin in db.replicas
    && 0 <= w.from < w.through <= db.replicas[w.origin].cursor
    && 0 < w.witnessSequence <= |db.log|
  }

  predicate Ordered(v: Window, w: Window)
  {
    v.witnessSequence < w.witnessSequence && (v.origin == w.origin ==> v.through <= w.from)
  }

  ghost predicate WindowsOk(db: Db)
  {
    && (forall i :: 0 <= i < |db.imports| ==> WindowOk(db, db.imports[i]))
    && (forall i, j :: 0 <= i < j < |db.imports| ==> Ordered(db.imports[i], db.imports[j]))
    && (forall k :: k in db.witnesses ==> k.origin in db.replicas && k.cursor <= db.replicas[k.origin].cursor)
  }

  ghost predicate Covered(db: Db, o: NodeId, sequence: int)
  {
    exists i :: 0 <= i < |db.imports| && Covers(db.imports[i], o, sequence)
  }

  ghost predicate WitnessInv(db: Db)
  {
    && WindowsOk(db)
    && (forall p :: p in Subjects(db) ==> Covered(db, p.0, p.1))
    && WitnessCount(db.log) == |db.imports| <= |Subjects(db)|
  }

  /** Retained logs only ever get longer. */
  ghost predicate RowsGrow(db: Db, db': Db)
  {
    forall o :: o in db.replicas ==> RowsGrowAt(db, db', o)
  }

  predicate RowsGrowAt(db: Db, db': Db, o: NodeId)
    requires o in db.replicas
  {
    o in db'.replicas && db.replicas[o].events <= db'.replicas[o].events
  }

  /** A later state of the same node: retained logs and windows only grow, and no window is backdated. */
  ghost predicate Later(db: Db, db': Db)
  {
    && db.log <= db'.log
    && db.imports <= db'.imports
    && RowsGrow(db, db')
    && forall i :: |db.imports| <= i < |db'.imports| ==> |db.log| < db'.imports[i].witnessSequence
  }

  // -------------------------------------------------------------- one import

  /**
    What a successful import of `news` on top of `known` does: nothing besides
    the rows for witness events alone; one witness and one window otherwise.
  */
  ghost predicate Effect(
    db: Db, db': Db, k: WitnessKey, known: seq<OriginEvent>, news: seq<OriginEvent>, statement: Record)
  {
    && known == RetainedLog(db, k.origin)
    && k.origin in db'.replicas && db'.replicas == db.replicas[k.origin := db'.replicas[k.origin]]
    && db'.replicas[k.origin].events == known + news
    && db'.replicas[k.origin].cursor == |known + news|
    && if AllWitnesses(news) then db'.log == db.log && db'.imports == db.imports && db'.witnesses == db.witnesses
       else
         && k.cursor == |known + news|
         && db'.log == Appended(db.key, db.log, statement)
         && db'.imports == db.imports + [Window(k.origin, |known|, |known + news|, |db.log| + 1)]
         && db'.witnesses == db.witnesses[k := |db.log| + 1]
  }

  /** The window an import adds is never dropped as a duplicate, and never reuses an old witness. */
  lemma {:induction false} FreshWindow(db: Db, k: WitnessKey, known: int)
    requires Shaped(db) && WindowsOk(db)
    requires known == if k.origin in db.replicas then db.replicas[k.origin].cursor else 0
    requires known < k.cursor
    ensures k !in db.witnesses
    ensures var w := Window(k.origin, known, k.cursor, |db.log| + 1);
      AddWindow(db.imports, w) == db.imports + [w]
  {
    var w := Window(k.origin, known, k.cursor, |db.log| + 1);
    forall i | 0 <= i < |db.imports|
      ensures db.imports[i].witnessSequence != w.witnessSequence &&
        db.imports[i].(witnessSequence := w.witnessSequence) != w
    {
      assert WindowOk(db, db.imports[i]);
    }
  }

  lemma {:induction false} CommitEffect(db: Db, b: Bundle, r: Replica, statement: Record)
    requires Shaped(db) && WindowsOk(db) && r == Known(db, b)
    requires 0 <= b.fromCursor <= r.cursor == |r.events|
    requires b.checkpoint.cursor == b.throughCursor == b.fromCursor + |b.events|
    ensures var news := b.events[Overlap(r, b)..]; var (db', outcome) := Commit(db, b, r, news, statement);
      outcome.Imported? ==>
        Effect(db, db', WitnessKey(b.originId, b.checkpoint.cursor, b.checkpoint.eventHash), r.events, news, statement)
  {
    var news := b.events[Overlap(r, b)..];
    if !AllWitnesses(news) {
      assert |news| > 0 && |r.events + news| == b.throughCursor;
      FreshWindow(db, WitnessKey(b.originId, b.checkpoint.cursor, b.checkpoint.eventHash), r.cursor);
    }
  }

  lemma {:induction false} ImportEffect(db: Db, b: Bundle, refused: set<int>, statement: Record)
    requires Inv(db) && WindowsOk(db)
    ensures var (db', outcome) := Import(db, b, refused, statement);
      if outcome.Imported? then
        exists known, news ::
          Effect(db, db', WitnessKey(b.originId, b.checkpoint.cursor, b.checkpoint.eventHash), known, news, statement)
      else
        db' == db.(evidence := db'.evidence)
  {
    if Import(db, b, refused, statement).1.Imported? {
      ImportedShape(db, b, refused, statement);
      AdmittedShape(db, b, Known(db, b), refused, statement);
      CommitEffect(db, b, Known(db, b), statement);
    } else {
      FailureIsHarmless(db, b, refused, statement);
    }
  }

  lemma {:induction false} WitnessCountAppend(es: seq<OriginEvent>, e: OriginEvent)
    ensures WitnessCount(es + [e]) == WitnessCount(es) + (if Ordinary(e) then 0 else 1)
  {
    assert (es + [e])[..|es|] == es;
  }

  lemma {:induction false} EffectOnSubjects(
    db: Db, db': Db, k: WitnessKey, known: seq<OriginEvent>, news: seq<OriginEvent>, statement: Record)
    requires Effect(db, db', k, known, news, statement)
    ensures forall p :: p in Subjects(db') ==>
      p in Subjects(db) || (!AllWitnesses(news) && p.0 == k.origin && |known| < p.1 <= |known + news|)
    ensures |Subjects(db)| + (if AllWitnesses(news) then 0 else 1) <= |Subjects(db')|
  {
    forall o, s | IsSubject(db, o, s)
      ensures IsSubject(db', o, s)
    {
    }
    forall o, s | IsSubject(db', o, s)
      ensures IsSubject(db, o, s) || (!AllWitnesses(news) && o == k.origin && |known| < s <= |known + news|)
    {
      if o == k.origin && s > |known| {
        assert db'.replicas[o].events[s - 1] == news[s - 1 - |known|];
      }
    }
    if !AllWitnesses(news) {
      var i :| 0 <= i < |news| && Ordinary(news[i]);
      assert IsSubject(db', k.origin, |known| + i + 1) && !IsSubject(db, k.origin, |known| + i + 1);
    }
    SubsetSize(Subjects(db), Subjects(db'));
  }

  lemma {:induction false} EffectKeepsWindows(
    db: Db, db': Db, k: WitnessKey, known: seq<OriginEvent>, news: seq<OriginEvent>, statement: Record)
    requires Shaped(db) && WindowsOk(db) && Effect(db, db', k, known, news, statement)
    ensures WindowsOk(db') && Later(db, db')
  {
    forall i | 0 <= i < |db.imports|
      ensures WindowOk(db', db.imports[i])
      ensures Ordered(db.imports[i], Window(k.origin, |known|, |known + news|, |db.log| + 1))
    {
      assert WindowOk(db, db.imports[i]);
    }
    forall i, j | 0 <= i < j < |db'.imports|
      ensures Ordered(db'.imports[i], db'.imports[j])
    {
      assert j < |db.imports| ==> Ordered(db.imports[i], db.imports[j]);
    }
  }

  lemma {:induction false} EffectKeepsWitnessInv(
    db: Db, db': Db, k: WitnessKey, known: seq<OriginEvent>, news: seq<OriginEvent>, statement: Record)
    requires Shaped(db) && WitnessInv(db) && statement.kind == WITNESS_KIND
    requires Effect(db, db', k, known, news, statement)
    ensures WitnessInv(db') && Later(db, db')
  {
    EffectKeepsWindows(db, db', k, known, news, statement);
    EffectOnSubjects(db, db', k, known, news, statement);
    if !AllWitnesses(news) {
      WitnessCountAppend(db.log, db'.log[|db.log|]);
    }
    forall p | p in Subjects(db')
      ensures Covered(db', p.0, p.1)
    {
      if p in Subjects(db) {
        assert Covered(db, p.0, p.1);
        var i :| 0 <= i < |db.imports| && Covers(db.imports[i], p.0, p.1);
        assert db'.imports[i] == db.imports[i];
      } else {
        assert Covers(db'.imports[|db.imports|], p.0, p.1);
      }
    }
  }

  lemma {:induction false} SameWindows(db: Db, db': Db)
    requires WitnessInv(db)
    requires db'.replicas == db.replicas && db'.imports == db.imports && db'.witnesses == db.witnesses
    requires db.log <= db'.log && WitnessCount(db'.log) == WitnessCount(db.log)
    ensures WitnessInv(db') && Later(db, db')
  {
    assert forall o, s :: IsSubject(db', o, s) <==> IsSubject(db, o, s);
    assert Subjects(db') == Subjects(db);
    forall i | 0 <= i < |db'.imports|
      ensures WindowOk(db', db'.imports[i])
    {
      assert WindowOk(db, db.imports[i]);
    }
    forall p | p in Subjects(db')
      ensures Covered(db', p.0, p.1)
    {
      assert Covered(db, p.0, p.1);
    }
  }

  lemma {:induction false} ApplyKeepsWitnessInv(db: Db, step: Step)
    requires Inv(db) && WitnessInv(db)
    requires if step.Append? then step.record.kind != WITNESS_KIND else step.statement.kind == WITNESS_KIND
    ensures WitnessInv(Apply(db, step))
    ensures Later(db, Apply(db, step))
  {
    var db' := Apply(db, step);
    match step
    case Append(_, record) =>
      if db' != db {
        WitnessCountAppend(db.log, db'.log[|db.log|]);
      }
      SameWindows(db, db');
    case Deliver(_, b, refused, statement) =>
      ImportEffect(db, b, refused, statement);
      if Import(db, b, refused, statement).1.Imported? {
        var k := WitnessKey(b.originId, b.checkpoint.cursor, b.checkpoint.eventHash);
        var known, news :| Effect(db, db', k, known, news, statement);
        EffectKeepsWitnessInv(db, db', k, known, news, statement);
      } else {
        SameWindows(db, db');
      }
  }

  // --------------------------------------------------------------- all runs

  ghost predicate WitnessAt(net: seq<Db>, n: int)
    requires 0 <= n < |net|
  {
    WitnessInv(net[n])
  }

  ghost predicate LaterAt(net: seq<Db>, net': seq<Db>, n: int)
    requires 0 <= n < |net| && 0 <= n < |net'|
  {
    Later(net[n], net'[n])
  }

  lemma {:induction false} LaterTransitive(a: Db, b: Db, c: Db)
    requires Later(a, b) && Later(b, c)
    ensures Later(a, c)
  {
    forall o | o in a.replicas
      ensures RowsGrowAt(a, c, o)
    {
      assert RowsGrowAt(a, b, o) && RowsGrowAt(b, c, o);
    }
  }

  lemma {:induction false} StepKeepsWitnessInv(net: seq<Db>, step: Step, net': seq<Db>, n: nat)
    requires NodesOk(net) && Takes(net, step, net') && n < |net| && WitnessAt(net, n)
    ensures |net'| == |net| && WitnessAt(net', n) && LaterAt(net, net', n)
  {
    if n == step.node {
      assert NodeOk(net, n);
      ApplyKeepsWitnessInv(net[n], step);
    } else {
      SameWindows(net[n], net'[n]);
    }
  }

  /** From moment `i` of a run to any moment `j` after it, at one node. */
  lemma {:induction false} RunKeepsWitnessInv(nets: seq<seq<Db>>, steps: seq<Step>, i: nat, j: nat, n: nat)
    requires IsRun(nets, steps) && NetInv(nets[0]) && i <= j <= |steps|
    requires |nets[i]| == |nets[0]| && n < |nets[0]| && WitnessAt(nets[i], n)
    ensures |nets[j]| == |nets[0]| && WitnessAt(nets[j], n) && LaterAt(nets[i], nets[j], n)
    decreases j
  {
    if i == j {
      SameWindows(nets[i][n], nets[i][n]);
    } else {
      RunKeepsWitnessInv(nets, steps, i, j - 1, n);
      RunKeepsNet(nets, steps, j - 1);
      assert TakesAt(nets, steps, j - 1);
      StepKeepsWitnessInv(nets[j - 1], steps[j - 1], nets[j], n);
      LaterTransitive(nets[i][n], nets[j - 1][n], nets[j][n]);
    }
  }

  lemma {:induction false} EmptyWitnessInv(net: seq<Db>, n: nat)
    requires Initial(net) && n < |net|
    ensures WitnessAt(net, n)
  {
    assert Subjects(net[n]) == {};
  }

  /** Exactly one recorded window covers the event. */
  ghost predicate CoveredOnce(db: Db, o: NodeId, sequence: int)
  {
    exists i :: 0 <= i < |db.imports| && Covers(db.imports[i], o, sequence) && OnlyCover(db, i, o, sequence)
  }

  ghost predicate OnlyCover(db: Db, i: int, o: NodeId, sequence: int)
  {
    forall j :: 0 <= j < |db.imports| && j != i ==> !Covers(db.imports[j], o, sequence)
  }

  lemma {:induction false} OneWindow(db: Db, o: NodeId, sequence: int)
    requires WindowsOk(db) && Covered(db, o, sequence)
    ensures CoveredOnce(db, o, sequence)
  {
    var i :| 0 <= i < |db.imports| && Covers(db.imports[i], o, sequence);
    forall j | 0 <= j < |db.imports| && j != i
      ensures !Covers(db.imports[j], o, sequence)
    {
      assert if i < j then Ordered(db.imports[i], db.imports[j]) else Ordered(db.imports[j], db.imports[i]);
    }
    assert OnlyCover(db, i, o, sequence);
  }

  /**
    At every moment of every run, at every node: windows of one origin are
    disjoint and inside what is retained, every
    ordinary event that was imported lies in exactly one window, and there are
    no more witness events than ordinary events imported.
  */
  lemma {:induction false} WindowsPartitionImports(
    nets: seq<seq<Db>>, steps: seq<Step>, k: nat, n: nat, o: NodeId, sequence: int)
    requires IsRun(nets, steps) && Initial(nets[0]) && k <= |steps| && n < |nets[0]|
    ensures |nets[k]| == |nets[0]|
    ensures WindowsOk(nets[k][n])
    ensures (o, sequence) in Subjects(nets[k][n]) ==> CoveredOnce(nets[k][n], o, sequence)
    ensures WitnessCount(nets[k][n].log) == |nets[k][n].imports| <= |Subjects(nets[k][n])|
  {
    InitialOk(nets[0]);
    EmptyWitnessInv(nets[0], n);
    RunKeepsWitnessInv(nets, steps, 0, k, n);
    if (o, sequence) in Subjects(nets[k][n]) {
      OneWindow(nets[k][n], o, sequence);
    }
  }

  // ---------------------------------------------------------- witness traffic

  predicate OrdinaryIn(net: seq<Db>, m: int, sequence: int)
  {
    0 <= m < |net| && 1 <= sequence <= |net[m].log| && Ordinary(net[m].log[sequence - 1])
  }

  /** The ordinary events of the whole network, by node and sequence. */
  ghost function OrdinaryEvents(net: seq<Db>): set<(NodeId, int)>
  {
    set m, s | 0 <= m < |net| && 1 <= s <= |net[m].log| && OrdinaryIn(net, m, s) :: (Id(net[m]), s)
  }

  function Appends(steps: seq<Step>): nat
  {
    if steps == [] then 0 else Appends(steps[..|steps| - 1]) + if steps[|steps| - 1].Append? then 1 else 0
  }

  /** Every retained origin is one of the network's own nodes. */
  ghost predicate Closed(net: seq<Db>)
  {
    forall n :: 0 <= n < |net| ==> ClosedAt(net, n)
  }

  ghost predicate ClosedAt(net: seq<Db>, n: int)
    requires 0 <= n < |net|
  {
    forall o :: o in net[n].replicas ==> IsNode(net, o)
  }

  ghost predicate IsNode(net: seq<Db>, o: NodeId)
  {
    exists m :: 0 <= m < |net| && o == Id(net[m])
  }

  ghost predicate FromNodes(net: seq<Db>, step: Step)
  {
    step.Deliver? ==> IsNode(net, step.bundle.originId)
  }

  ghost predicate SameNodes(net: seq<Db>, net': seq<Db>)
  {
    |net'| == |net| && forall m :: 0 <= m < |net| ==> net'[m].key == net[m].key
  }

  lemma {:induction false} StillANode(net: seq<Db>, net': seq<Db>, o: NodeId)
    requires SameNodes(net, net') && IsNode(net, o)
    ensures IsNode(net', o)
  {
    var m :| 0 <= m < |net| && o == Id(net[m]);
    assert o == Id(net'[m]);
  }

  /** An import retains no new origin but the bundle's. */
  lemma {:induction false} ImportRetains(db: Db, b: Bundle, refused: set<int>, statement: Record, o: NodeId)
    requires Inv(db) && o in Import(db, b, refused, statement).0.replicas
    ensures o in db.replicas || o == b.originId
  {
    if Import(db, b, refused, statement).1.Imported? {
      ImportedShape(db, b, refused, statement);
    } else {
      FailureIsHarmless(db, b, refused, statement);
    }
  }

  lemma {:induction false} StepKeepsClosed(net: seq<Db>, step: Step, net': seq<Db>)
    requires NodesOk(net) && Closed(net) && Takes(net, step, net') && FromNodes(net, step) && SameNodes(net, net')
    ensures Closed(net')
  {
    forall n | 0 <= n < |net'|
      ensures ClosedAt(net', n)
    {
      assert NodeOk(net, n) && ClosedAt(net, n);
      forall o | o in net'[n].replicas
        ensures IsNode(net', o)
      {
        if n == step.node && step.Deliver? {
          ImportRetains(net[n], step.bundle, step.refused, step.statement, o);
        }
        StillANode(net, net', o);
      }
    }
  }

  /** A delivery appends witness events only; an append, one event. */
  ghost predicate LogGrows(db: Db, db': Db, step: Step)
  {
    && db'.key == db.key && db.log <= db'.log
    && |db'.log| <= |db.log| + 1
    && (|db'.log| > |db.log| && step.Deliver? ==> !Ordinary(db'.log[|db.log|]))
  }

  lemma {:induction false} ApplyGrowsLog(db: Db, step: Step)
    requires Inv(db) && WitnessInv(db)
    requires step.Deliver? ==> step.statement.kind == WITNESS_KIND
    ensures LogGrows(db, Apply(db, step), step)
  {
    ApplyKeepsNode(db, step);
    if step.Deliver? {
      ImportEffect(db, step.bundle, step.refused, step.statement);
    }
  }

  lemma {:induction false} OrdinaryEventsGrow(net: seq<Db>, step: Step, db': Db)
    requires step.node < |net| && LogGrows(net[step.node], db', step)
    ensures |OrdinaryEvents(net[step.node := db'])| <= |OrdinaryEvents(net)| + (if step.Append? then 1 else 0)
  {
    var k := step.node;
    var net' := net[k := db'];
    var p := (Id(net[k]), |net[k].log| + 1);
    forall q | q in OrdinaryEvents(net')
      ensures q in OrdinaryEvents(net) || (step.Append? && q == p)
    {
      var m, s :| 0 <= m < |net'| && 1 <= s <= |net'[m].log| && OrdinaryIn(net', m, s) && q == (Id(net'[m]), s);
      if s <= |net[m].log| {
        assert OrdinaryIn(net, m, s);
      }
    }
    var bound := if step.Append? then OrdinaryEvents(net) + {p} else OrdinaryEvents(net);
    SubsetSize(OrdinaryEvents(net'), bound);
  }

  lemma {:induction false} SubjectsAreOrdinaryEvents(net: seq<Db>, n: nat)
    requires NetInv(net) && Closed(net) && n < |net|
    ensures |Subjects(net[n])| <= |OrdinaryEvents(net)|
  {
    forall o, s | IsSubject(net[n], o, s)
      ensures (o, s) in OrdinaryEvents(net)
    {
      assert ClosedAt(net, n) && IsNode(net, o);
      var m :| 0 <= m < |net| && o == Id(net[m]);
      assert PrefixAt(net, n, m);
      assert OrdinaryIn(net, m, s);
    }
    SubsetSize(Subjects(net[n]), OrdinaryEvents(net));
  }

  ghost predicate MutualInv(net: seq<Db>)
  {
    NetInv(net) && Closed(net) && forall n :: 0 <= n < |net| ==> WitnessAt(net, n)
  }

  /** The log of the stepping node grows by at most one event, ordinary only on an append. */
  lemma {:induction false} StepGrowsLog(net: seq<Db>, step: Step, net': seq<Db>)
    requires NodesOk(net) && Takes(net, step, net') && WitnessAt(net, step.node)
    ensures SameNodes(net, net')
    ensures |OrdinaryEvents(net')| <= |OrdinaryEvents(net)| + (if step.Append? then 1 else 0)
  {
    assert NodeOk(net, step.node);
    ApplyGrowsLog(net[step.node], step);
    OrdinaryEventsGrow(net, step, net'[step.node]);
  }

  lemma {:induction false} StepKeepsMutual(net: seq<Db>, step: Step, net': seq<Db>)
    requires MutualInv(net) && Takes(net, step, net') && FromNodes(net, step)
    ensures MutualInv(net') && SameNodes(net, net')
    ensures |OrdinaryEvents(net')| <= |OrdinaryEvents(net)| + (if step.Append? then 1 else 0)
  {
    assert WitnessAt(net, step.node);
    StepGrowsLog(net, step, net');
    StepKeepsNet(net, step, net');
    StepKeepsClosed(net, step, net');
    forall n | 0 <= n < |net'|
      ensures WitnessAt(net', n)
    {
      assert WitnessAt(net, n);
      StepKeepsWitnessInv(net, step, net', n);
    }
  }

  lemma {:induction false} RunKeepsMutual(nets: seq<seq<Db>>, steps: seq<Step>, k: nat)
    requires IsRun(nets, steps) && MutualInv(nets[0]) && k <= |steps|
    requires forall i :: 0 <= i < |steps| ==> FromNodes(nets[0], steps[i])
    ensures MutualInv(nets[k]) && SameNodes(nets[0], nets[k])
    ensures |OrdinaryEvents(nets[k])| <= |OrdinaryEvents(nets[0])| + Appends(steps[..k])
  {
    if k > 0 {
      RunKeepsMutual(nets, steps, k - 1);
      assert steps[..k][..k - 1] == steps[..k - 1];
      assert TakesAt(nets, steps, k - 1);
      assert FromNodes(nets[0], steps[k - 1]);
      if steps[k - 1].Deliver? {
        StillANode(nets[0], nets[k - 1], steps[k - 1].bundle.originId);
      }
      StepKeepsMutual(nets[k - 1], steps[k - 1], nets[k]);
    }
  }

  lemma {:induction false} InitialIsMutual(net: seq<Db>)
    requires Initial(net)
    ensures MutualInv(net) && OrdinaryEvents(net) == {}
  {
    InitialOk(net);
    forall n | 0 <= n < |net|
      ensures WitnessAt(net, n) && ClosedAt(net, n)
    {
      EmptyWitnessInv(net, n);
    }
    assert OrdinaryEvents(net) == {};
  }

  /**
    Witnesses are never witnessed forever: among mutually importing nodes, no
    node ever holds more witness events than ordinary operations were performed
    in the run so far, however many deliveries there were.
  */
  lemma {:induction false} WitnessTrafficBounded(nets: seq<seq<Db>>, steps: seq<Step>, k: nat, n: nat)
    requires IsRun(nets, steps) && Initial(nets[0]) && k <= |steps| && n < |nets[0]|
    requires forall i :: 0 <= i < |steps| ==> FromNodes(nets[0], steps[i])
    ensures |nets[k]| == |nets[0]| && WitnessCount(nets[k][n].log) <= Appends(steps[..k])
  {
    InitialIsMutual(nets[0]);
    RunKeepsMutual(nets, steps, k);
    assert WitnessAt(nets[k], n);
    SubjectsAreOrdinaryEvents(nets[k], n);
  }
}
