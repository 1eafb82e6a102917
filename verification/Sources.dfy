/**
  The source-admission gate: a proposed source may be collected from once two
  independent lineages hold traceable approvals.  The origin counts its review
  table after the upsert; an importer counts the stored rows that join to an
  already imported event and then adds the event at hand.  Fetch results move
  the origin's status further, unseen by the importer.
*/
module Sources {
  import opened Common

  type SourceId = nat
  type Lineage = nat

  datatype Recommendation = Approve | Reject | NeedsEvidence

  datatype SourceEvent =
    | Proposal(source: SourceId, author: Lineage)
    | Review(source: SourceId, author: Lineage, recommendation: Recommendation, traceable: bool, evidence: nat)
    | Observation(source: SourceId)
    | Unrelated

  /** A review row names the event that wrote it; event ids are unique, so a log position serves as one. */
  datatype ReviewRow = ReviewRow(event: nat, recommendation: Recommendation)

  type Reviews = map<(SourceId, Lineage), ReviewRow>

  datatype Status = Proposed | Probation | Active | Degraded

  datatype LocalSource = LocalSource(proposer: Lineage, status: Status, successes: nat, failures: nat)

  datatype Local = Local(log: seq<SourceEvent>, sources: map<SourceId, LocalSource>, reviews: Reviews)

  datatype RemoteSource = RemoteSource(proposer: Lineage, status: Status)

  datatype Remote = Remote(log: seq<SourceEvent>, sources: map<SourceId, RemoteSource>, reviews: Reviews)

  const EMPTY_LOCAL := Local([], map[], map[])
  const EMPTY_REMOTE := Remote([], map[], map[])

  /** The join with the event table: the row's event is stored and reports `traceable`. */
  predicate JoinsTraceable(log: seq<SourceEvent>, event: nat)
  {
    1 <= event <= |log| && log[event - 1].Review? && log[event - 1].traceable
  }

  /** The reviewers whose stored row is an approval that joins to a traceable event. */
  function Approvers(log: seq<SourceEvent>, reviews: Reviews, s: SourceId): set<Lineage>
  {
    set k | k in reviews && k.0 == s && reviews[k].recommendation == Approve &&
      JoinsTraceable(log, reviews[k].event) :: k.1
  }

  // ----------------------------------------------------------------- origin

  datatype Command =
    | Propose(source: SourceId, author: Lineage)
    | Assess(source: SourceId, author: Lineage, recommendation: Recommendation, traceable: bool, evidence: nat)
    | Observe(source: SourceId)
    | Fetched(source: SourceId, success: bool)
    | AppendOther

  predicate Accepts(l: Local, c: Command)
  {
    match c
    case Propose(s, _) => s !in l.sources
    case Assess(s, author, _, traceable, evidence) =>
      traceable && s in l.sources && l.sources[s].proposer != author && evidence > 0
    case Observe(s) => s in l.sources && l.sources[s].status != Proposed
    case Fetched(s, _) => s in l.sources
    case AppendOther => true
  }

  /** `mark_source_fetch`; the conditions read the row before the update. */
  function Marked(row: LocalSource, success: bool): LocalSource
  {
    if success then
      var promoted := row.status == Degraded || (row.status == Probation && row.successes >= 9);
      row.(successes := row.successes + 1, failures := 0, status := if promoted then Active else row.status)
    else
      var demoted := row.failures >= 2 && row.status == Active;
      row.(failures := row.failures + 1, status := if demoted then Degraded else row.status)
  }

  /** The event a command appends; a fetch result appends none. */
  function EventsOf(c: Command): seq<SourceEvent>
  {
    match c
    case Propose(s, author) => [Proposal(s, author)]
    case Assess(s, author, recommendation, traceable, evidence) =>
      [Review(s, author, recommendation, traceable, evidence)]
    case Observe(s) => [Observation(s)]
    case Fetched(_, _) => []
    case AppendOther => [Unrelated]
  }

  function Opened(status: Status, approvals: nat): Status
  {
    if approvals >= 2 && status == Proposed then Probation else status
  }

  function Applied(l: Local, c: Command): Local
    requires Accepts(l, c)
  {
    var log := l.log + EventsOf(c);
    match c
    case Propose(s, author) => Local(log, l.sources[s := LocalSource(author, Proposed, 0, 0)], l.reviews)
    case Assess(s, author, recommendation, _, _) =>
      var reviews := l.reviews[(s, author) := ReviewRow(|log|, recommendation)];
      var row := l.sources[s];
      Local(log, l.sources[s := row.(status := Opened(row.status, |Approvers(log, reviews, s)|))], reviews)
    case Observe(_) => l.(log := log)
    case Fetched(s, success) => l.(sources := l.sources[s := Marked(l.sources[s], success)])
    case AppendOther => l.(log := log)
  }

  function Serve(cs: seq<Command>): Local
  {
    if cs == [] then EMPTY_LOCAL
    else
      var l := Serve(cs[..|cs| - 1]);
      if Accepts(l, cs[|cs| - 1]) then Applied(l, cs[|cs| - 1]) else l
  }

  // --------------------------------------------------------------- importer

  /** An importer also takes reviews from before tracing existed. */
  predicate Imports(r: Remote, e: SourceEvent)
  {
    match e
    case Proposal(s, _) => s !in r.sources
    case Review(s, author, _, _, evidence) => s in r.sources && r.sources[s].proposer != author && evidence > 0
    case Observation(s) => s in r.sources && (r.sources[s].status == Probation || r.sources[s].status == Active)
    case Unrelated => true
  }

  /** "Stored traceable approvals", counted before the event is stored, "plus the current one". */
  function RemoteCount(r: Remote, e: SourceEvent): nat
    requires e.Review?
  {
    var reviews := r.reviews[(e.source, e.author) := ReviewRow(|r.log| + 1, e.recommendation)];
    |Approvers(r.log, reviews, e.source)| + if e.traceable && e.recommendation == Approve then 1 else 0
  }

  function Imported(r: Remote, e: SourceEvent): Remote
    requires Imports(r, e)
  {
    var log := r.log + [e];
    match e
    case Proposal(s, author) => Remote(log, r.sources[s := RemoteSource(author, Proposed)], r.reviews)
    case Review(s, author, recommendation, _, _) =>
      var row := r.sources[s];
      Remote(log, r.sources[s := row.(status := Opened(row.status, RemoteCount(r, e)))],
             r.reviews[(s, author) := ReviewRow(|log|, recommendation)])
    case Observation(_) => r.(log := log)
    case Unrelated => r.(log := log)
  }

  /** The importer's tables after a whole log, or `None` if some event was refused. */
  function Project(log: seq<SourceEvent>): Option<Remote>
  {
    if log == [] then Some(EMPTY_REMOTE)
    else
      var r := Project(log[..|log| - 1]);
      if r.None? || !Imports(r.value, log[|log| - 1]) then None else Some(Imported(r.value, log[|log| - 1]))
  }

  // -------------------------------------------------------------- agreement

  predicate RowsStored(log: seq<SourceEvent>, reviews: Reviews)
  {
    forall k :: k in reviews ==> 1 <= reviews[k].event <= |log|
  }

  /** Counting before the insert and adding the current review is counting after it, re-reviews included. */
  lemma {:induction false} CountsAgree(r: Remote, e: SourceEvent)
    requires e.Review? && RowsStored(r.log, r.reviews)
    ensures var reviews := r.reviews[(e.source, e.author) := ReviewRow(|r.log| + 1, e.recommendation)];
      RemoteCount(r, e) == |Approvers(r.log + [e], reviews, e.source)|
  {
    var n := |r.log| + 1;
    var log' := r.log + [e];
    var reviews := r.reviews[(e.source, e.author) := ReviewRow(n, e.recommendation)];
    var stored := Approvers(r.log, reviews, e.source);
    var all := Approvers(log', reviews, e.source);
    forall k | k in reviews && k != (e.source, e.author)
      ensures JoinsTraceable(r.log, reviews[k].event) <==> JoinsTraceable(log', reviews[k].event)
    {
      assert 1 <= r.reviews[k].event <= |r.log|;
    }
    assert log'[n - 1] == e;
    assert e.author !in stored;
    if e.traceable && e.recommendation == Approve {
      assert reviews[(e.source, e.author)].recommendation == Approve && JoinsTraceable(log', n);
      assert all == stored + {e.author};
    } else {
      assert all == stored;
    }
  }

  /** Same log, same reviews, same proposers, and a source is `proposed` on both sides or on neither. */
  ghost predicate Agrees(l: Local, r: Remote)
  {
    && l.log == r.log && l.reviews == r.reviews
    && l.sources.Keys == r.sources.Keys
    && (forall s :: s in l.sources ==> SameGate(l.sources[s], r.sources[s]))
  }

  predicate SameGate(l: LocalSource, r: RemoteSource)
  {
    && l.proposer == r.proposer
    && (l.status == Proposed <==> r.status == Proposed)
    && (r.status == Proposed || r.status == Probation)
  }

  lemma {:induction false} StepAgrees(l: Local, r: Remote, c: Command)
    requires Agrees(l, r) && Accepts(l, c) && !c.Fetched? && RowsStored(r.log, r.reviews)
    ensures Imports(r, EventsOf(c)[0])
    ensures Agrees(Applied(l, c), Imported(r, EventsOf(c)[0]))
  {
    var e := EventsOf(c)[0];
    assert !c.AppendOther? && c.source in l.sources ==> SameGate(l.sources[c.source], r.sources[c.source]);
    if c.Assess? {
      CountsAgree(r, e);
    }
  }

  /**
    Over every run of proposals, reviews, re-reviews, observations and fetch
    results every event of the origin passes the importer's source gate, and a
    source is still `proposed` at the origin exactly if it is at the importer.
  */
  lemma {:induction false} GateAgrees(cs: seq<Command>)
    ensures var r := Project(Serve(cs).log);
      r.Some? && Agrees(Serve(cs), r.value) && RowsStored(r.value.log, r.value.reviews)
  {
    if cs != [] {
      var front, c := cs[..|cs| - 1], cs[|cs| - 1];
      GateAgrees(front);
      var l := Serve(front);
      var r := Project(l.log).value;
      if Accepts(l, c) && !c.Fetched? {
        var log' := Applied(l, c).log;
        assert log'[..|log'| - 1] == l.log;
        StepAgrees(l, r, c);
      }
    }
  }

  // ------------------------------------------------- the gate, from the log alone

  /** Event `i` is its author's last word on the source. */
  predicate LastWord(log: seq<SourceEvent>, i: int, s: SourceId)
  {
    && 0 <= i < |log| && log[i].Review? && log[i].source == s
    && forall j :: i < j < |log| ==> !(log[j].Review? && log[j].source == s && log[j].author == log[i].author)
  }

  predicate StandingApproval(log: seq<SourceEvent>, i: int, s: SourceId)
  {
    LastWord(log, i, s) && log[i].recommendation == Approve && log[i].traceable
  }

  /** The lineages whose last word on the source is a traceable approval. */
  function Standing(log: seq<SourceEvent>, s: SourceId): set<Lineage>
  {
    set i | 0 <= i < |log| && StandingApproval(log, i, s) :: log[i].author
  }

  /** The table holds last words, and all of them. */
  ghost predicate TableIsLastWords(log: seq<SourceEvent>, reviews: Reviews)
  {
    && (forall k :: k in reviews ==> IsLastWordRow(log, k, reviews[k]))
    && (forall i, s: SourceId :: LastWord(log, i, s) ==>
      (s, log[i].author) in reviews && reviews[(s, log[i].author)].event == i + 1)
  }

  predicate IsLastWordRow(log: seq<SourceEvent>, k: (SourceId, Lineage), row: ReviewRow)
  {
    var i := row.event - 1;
    LastWord(log, i, k.0) && log[i].author == k.1 && log[i].recommendation == row.recommendation
  }

  lemma {:induction false} ApproversAreStanding(log: seq<SourceEvent>, reviews: Reviews, s: SourceId)
    requires TableIsLastWords(log, reviews)
    ensures Approvers(log, reviews, s) == Standing(log, s)
  {
    forall x | x in Approvers(log, reviews, s)
      ensures x in Standing(log, s)
    {
      assert IsLastWordRow(log, (s, x), reviews[(s, x)]);
      assert StandingApproval(log, reviews[(s, x)].event - 1, s);
    }
    forall x | x in Standing(log, s)
      ensures x in Approvers(log, reviews, s)
    {
      var i :| 0 <= i < |log| && StandingApproval(log, i, s) && log[i].author == x;
      assert LastWord(log, i, s);
      assert IsLastWordRow(log, (s, x), reviews[(s, x)]);
      assert (s, x) in reviews;
    }
  }

  lemma {:induction false} LastWordLater(log: seq<SourceEvent>, e: SourceEvent, i: int, s: SourceId)
    ensures LastWord(log + [e], i, s) <==>
      if i == |log| then e.Review? && e.source == s
      else LastWord(log, i, s) && !(e.Review? && e.source == s && e.author == log[i].author)
  {
    var log' := log + [e];
    if 0 <= i < |log| {
      assert log'[|log|] == e;
      if LastWord(log', i, s) {
        forall j | i < j < |log|
          ensures !(log[j].Review? && log[j].source == s && log[j].author == log[i].author)
        {
          assert log'[j] == log[j];
        }
      }
    }
  }

  lemma {:induction false} TableKept(r: Remote, e: SourceEvent)
    requires TableIsLastWords(r.log, r.reviews) && Imports(r, e)
    ensures TableIsLastWords(Imported(r, e).log, Imported(r, e).reviews)
  {
    var r' := Imported(r, e);
    forall k | k in r'.reviews
      ensures IsLastWordRow(r'.log, k, r'.reviews[k])
    {
      assert k in r.reviews ==> IsLastWordRow(r.log, k, r.reviews[k]);
      LastWordLater(r.log, e, r'.reviews[k].event - 1, k.0);
    }
    forall i, s: SourceId | LastWord(r'.log, i, s)
      ensures (s, r'.log[i].author) in r'.reviews && r'.reviews[(s, r'.log[i].author)].event == i + 1
    {
      LastWordLater(r.log, e, i, s);
    }
  }

  /** Some prefix of the log had two standing approvals. */
  ghost predicate EverAdmitted(log: seq<SourceEvent>, s: SourceId)
  {
    exists k :: 0 <= k <= |log| && |Standing(log[..k], s)| >= 2
  }

  lemma {:induction false} EverAdmittedLater(log: seq<SourceEvent>, e: SourceEvent, s: SourceId)
    ensures EverAdmitted(log + [e], s) <==> EverAdmitted(log, s) || |Standing(log + [e], s)| >= 2
  {
    var log' := log + [e];
    assert log'[..|log'|] == log';
    if EverAdmitted(log, s) {
      var k :| 0 <= k <= |log| && |Standing(log[..k], s)| >= 2;
      assert log'[..k] == log[..k];
    }
    if EverAdmitted(log', s) {
      var k :| 0 <= k <= |log'| && |Standing(log'[..k], s)| >= 2;
      if k <= |log| {
        assert log'[..k] == log[..k];
      }
    }
  }

  /**
    What the importer stores, read back from the log: last words, and which
    sources ever had two standing approvals.
  */
  ghost predicate IsHistory(r: Remote)
  {
    && TableIsLastWords(r.log, r.reviews) && RowsStored(r.log, r.reviews)
    && (forall s :: s in r.sources ==> (r.sources[s].status != Proposed <==> EverAdmitted(r.log, s)))
    && (forall i :: 0 <= i < |r.log| && r.log[i].Review? ==> Independent(r.sources, r.log[i]))
  }

  predicate Independent(sources: map<SourceId, RemoteSource>, e: SourceEvent)
    requires e.Review?
  {
    e.source in sources && sources[e.source].proposer != e.author
  }

  predicate NoReviews(log: seq<SourceEvent>, s: SourceId)
  {
    forall i :: 0 <= i < |log| && log[i].Review? ==> log[i].source != s
  }

  lemma {:induction false} UnreviewedIsNotAdmitted(log: seq<SourceEvent>, s: SourceId)
    requires NoReviews(log, s)
    ensures !EverAdmitted(log, s)
  {
    forall k | 0 <= k <= |log|
      ensures |Standing(log[..k], s)| < 2
    {
      assert Standing(log[..k], s) == {};
    }
  }

  /** Only a review of the source itself changes its standing approvals. */
  lemma {:induction false} StandingUnchanged(log: seq<SourceEvent>, e: SourceEvent, s: SourceId)
    requires e.Review? ==> e.source != s
    ensures Standing(log + [e], s) == Standing(log, s)
  {
    var log' := log + [e];
    forall i | 0 <= i < |log'|
      ensures StandingApproval(log', i, s) <==> i < |log| && StandingApproval(log, i, s)
    {
      LastWordLater(log, e, i, s);
    }
    forall x | x in Standing(log, s)
      ensures x in Standing(log', s)
    {
      var i :| 0 <= i < |log| && StandingApproval(log, i, s) && log[i].author == x;
      assert log'[i] == log[i] && StandingApproval(log', i, s);
    }
  }

  lemma {:induction false} AdmissionUnchanged(log: seq<SourceEvent>, e: SourceEvent, s: SourceId)
    requires e.Review? ==> e.source != s
    ensures EverAdmitted(log + [e], s) <==> EverAdmitted(log, s)
  {
    EverAdmittedLater(log, e, s);
    StandingUnchanged(log, e, s);
    assert log[..|log|] == log;
  }

  lemma {:induction false} StatusKept(r: Remote, e: SourceEvent, s: SourceId)
    requires IsHistory(r) && Imports(r, e) && s in Imported(r, e).sources
    ensures Imported(r, e).sources[s].status != Proposed <==> EverAdmitted(Imported(r, e).log, s)
  {
    var r' := Imported(r, e);
    if e.Review? && e.source == s {
      TableKept(r, e);
      CountsAgree(r, e);
      ApproversAreStanding(r'.log, r'.reviews, s);
      EverAdmittedLater(r.log, e, s);
    } else {
      AdmissionUnchanged(r.log, e, s);
      if s !in r.sources {
        assert NoReviews(r.log, s) by {
          assert forall i | 0 <= i < |r.log| && r.log[i].Review? :: Independent(r.sources, r.log[i]);
        }
        UnreviewedIsNotAdmitted(r.log, s);
      }
    }
  }

  lemma {:induction false} HistoryKept(r: Remote, e: SourceEvent)
    requires IsHistory(r) && Imports(r, e)
    ensures IsHistory(Imported(r, e))
  {
    var r' := Imported(r, e);
    TableKept(r, e);
    forall s | s in r'.sources
      ensures r'.sources[s].status != Proposed <==> EverAdmitted(r'.log, s)
    {
      StatusKept(r, e, s);
    }
    forall i | 0 <= i < |r'.log| && r'.log[i].Review?
      ensures Independent(r'.sources, r'.log[i])
    {
      assert i < |r.log| ==> Independent(r.sources, r.log[i]);
    }
  }

  /**
    In every imported log a source is past `proposed` exactly if at some moment
    two different lineages, neither of them its proposer, had a traceable
    approval as their last word on it.
  */
  lemma {:induction false} AdmissionIsHistory(log: seq<SourceEvent>)
    requires Project(log).Some?
    ensures Project(log).value.log == log && IsHistory(Project(log).value)
  {
    if log != [] {
      AdmissionIsHistory(log[..|log| - 1]);
      HistoryKept(Project(log[..|log| - 1]).value, log[|log| - 1]);
    }
  }

  // ---------------------------------------------------------- fetch results

  /**
    What a status says about the fetches behind it: ten successes to be active,
    three failures in a row to be degraded.
  */
  predicate Earned(row: LocalSource)
  {
    && (row.status == Active || row.status == Degraded ==> row.successes >= 10)
    && (row.status == Degraded ==> row.failures >= 3)
  }

  /** Over every run, statuses are earned, and only fetch results give and take "active". */
  lemma {:induction false} StatusesAreEarned(cs: seq<Command>, s: SourceId)
    requires s in Serve(cs).sources
    ensures Earned(Serve(cs).sources[s])
  {
    var l := Serve(cs[..|cs| - 1]);
    if s in l.sources {
      StatusesAreEarned(cs[..|cs| - 1], s);
    }
  }

  predicate ProposedIn(cs: seq<Command>, s: SourceId)
  {
    exists i :: 0 <= i < |cs| && cs[i].Propose? && cs[i].source == s
  }

  /** Successful fetches of the source since it was proposed. */
  function Hits(cs: seq<Command>, s: SourceId): nat
  {
    if cs == [] then 0
    else
      var front := cs[..|cs| - 1];
      Hits(front, s) + if cs[|cs| - 1] == Fetched(s, true) && ProposedIn(front, s) then 1 else 0
  }

  /** Failed fetches since the last successful one. */
  function Misses(cs: seq<Command>, s: SourceId): nat
  {
    if cs == [] then 0
    else
      var front, c := cs[..|cs| - 1], cs[|cs| - 1];
      if c == Fetched(s, true) then 0
      else Misses(front, s) + if c == Fetched(s, false) && ProposedIn(front, s) then 1 else 0
  }

  /** The source was fetched with success at `k`, after two lineages had approved it, for the tenth time or later. */
  ghost predicate PromotedAt(cs: seq<Command>, s: SourceId, k: int)
  {
    && 0 <= k < |cs| && cs[k] == Fetched(s, true)
    && EverAdmitted(Serve(cs[..k]).log, s) && Hits(cs[..k + 1], s) >= 10
  }

  ghost predicate Promoted(cs: seq<Command>, s: SourceId)
  {
    exists k :: PromotedAt(cs, s, k)
  }

  lemma {:induction false} PromotedNext(cs: seq<Command>, s: SourceId)
    requires cs != []
    ensures Promoted(cs, s) <==> Promoted(cs[..|cs| - 1], s) || PromotedAt(cs, s, |cs| - 1)
  {
    var front := cs[..|cs| - 1];
    forall k | 0 <= k < |front|
      ensures PromotedAt(cs, s, k) <==> PromotedAt(front, s, k)
    {
      assert cs[..k] == front[..k] && cs[..k + 1] == front[..k + 1];
    }
  }

  lemma {:induction false} ProposedNext(cs: seq<Command>, s: SourceId)
    requires cs != []
    ensures ProposedIn(cs, s) <==>
      ProposedIn(cs[..|cs| - 1], s) || (cs[|cs| - 1].Propose? && cs[|cs| - 1].source == s)
  {
    var front := cs[..|cs| - 1];
    assert forall i :: 0 <= i < |front| ==> cs[i] == front[i];
  }

  /** The origin's own gate, from its log. */
  lemma {:induction false} OpenIffAdmitted(cs: seq<Command>, s: SourceId)
    requires s in Serve(cs).sources
    ensures Serve(cs).sources[s].status != Proposed <==> EverAdmitted(Serve(cs).log, s)
  {
    GateAgrees(cs);
    AdmissionIsHistory(Serve(cs).log);
    assert SameGate(Serve(cs).sources[s], Project(Serve(cs).log).value.sources[s]);
  }

  lemma {:induction false} BeforeProposal(cs: seq<Command>, s: SourceId)
    requires !ProposedIn(cs, s)
    ensures Hits(cs, s) == 0 && Misses(cs, s) == 0 && !Promoted(cs, s)
  {
    if cs != [] {
      ProposedNext(cs, s);
      PromotedNext(cs, s);
      BeforeProposal(cs[..|cs| - 1], s);
      assert cs[..|cs| - 1 + 1] == cs;
    }
  }

  ghost predicate RowIsHistory(cs: seq<Command>, s: SourceId, row: LocalSource)
  {
    && row.successes == Hits(cs, s) && row.failures == Misses(cs, s)
    && (row.status == Proposed <==> !EverAdmitted(Serve(cs).log, s))
    && (row.status in {Active, Degraded} <==> Promoted(cs, s))
    && (row.status == Degraded <==> Promoted(cs, s) && Misses(cs, s) >= 3)
  }

  /**
    Over every run a source's row is the history of its fetches: the successes
    since it was proposed, the failures since the last success; past probation
    exactly from a tenth or later success after its admission on; and from then
    on degraded exactly while three fetches or more have failed in a row.
  */
  lemma {:induction false} FetchHistory(cs: seq<Command>, s: SourceId)
    ensures s in Serve(cs).sources <==> ProposedIn(cs, s)
    ensures s in Serve(cs).sources ==> RowIsHistory(cs, s, Serve(cs).sources[s])
  {
    if cs != [] {
      var front, c := cs[..|cs| - 1], cs[|cs| - 1];
      FetchHistory(front, s);
      ProposedNext(cs, s);
      PromotedNext(cs, s);
      assert cs[..|cs| - 1 + 1] == cs;
      if !ProposedIn(front, s) {
        BeforeProposal(front, s);
      }
      if s in Serve(cs).sources {
        OpenIffAdmitted(cs, s);
      }
    }
  }

  // ------------------------------------------------- importable, from the log alone

  predicate Proposes(e: SourceEvent, s: SourceId)
  {
    e.Proposal? && e.source == s
  }

  ghost predicate ProposedBy(log: seq<SourceEvent>, s: SourceId, author: Lineage)
  {
    exists i :: 0 <= i < |log| && log[i] == Proposal(s, author)
  }

  ghost predicate ProposerOk(log: seq<SourceEvent>, sources: map<SourceId, RemoteSource>, s: SourceId)
  {
    && (s in sources ==> ProposedBy(log, s, sources[s].proposer) && sources[s].status in {Proposed, Probation})
    && (forall i :: 0 <= i < |log| && Proposes(log[i], s) ==> s in sources && sources[s].proposer == log[i].author)
  }

  ghost predicate ProposersOk(r: Remote)
  {
    forall s :: ProposerOk(r.log, r.sources, s)
  }

  /**
    What may come next: the first proposal of a source, a review by somebody
    else than its proposer with evidence, an observation of a source that has
    had two standing approvals.
  */
  ghost predicate Lawful(log: seq<SourceEvent>, e: SourceEvent)
  {
    match e
    case Proposal(s, _) => forall i :: 0 <= i < |log| ==> !Proposes(log[i], s)
    case Review(s, author, _, _, evidence) =>
      evidence > 0 && exists i :: 0 <= i < |log| && Proposes(log[i], s) && log[i].author != author
    case Observation(s) => EverAdmitted(log, s)
    case Unrelated => true
  }

  lemma {:induction false} ImportsByLog(r: Remote, e: SourceEvent)
    requires IsHistory(r) && ProposersOk(r)
    ensures Imports(r, e) <==> Lawful(r.log, e)
  {
    if !e.Unrelated? {
      var s := e.source;
      assert ProposerOk(r.log, r.sources, s);
      if s in r.sources {
        var i :| 0 <= i < |r.log| && r.log[i] == Proposal(s, r.sources[s].proposer);
        assert Proposes(r.log[i], s);
      } else {
        assert NoReviews(r.log, s) by {
          assert forall i | 0 <= i < |r.log| && r.log[i].Review? :: Independent(r.sources, r.log[i]);
        }
        UnreviewedIsNotAdmitted(r.log, s);
      }
    }
  }

  lemma {:induction false} ProposersKept(r: Remote, e: SourceEvent)
    requires ProposersOk(r) && Imports(r, e)
    ensures ProposersOk(Imported(r, e))
  {
    var r' := Imported(r, e);
    forall s
      ensures ProposerOk(r'.log, r'.sources, s)
    {
      assert ProposerOk(r.log, r.sources, s);
      assert r'.log[|r.log|] == e;
      if s in r.sources {
        var i :| 0 <= i < |r.log| && r.log[i] == Proposal(s, r.sources[s].proposer);
        assert r'.log[i] == r.log[i];
      }
    }
  }

  ghost predicate AllLawful(log: seq<SourceEvent>)
  {
    forall i :: 0 <= i < |log| ==> Lawful(log[..i], log[i])
  }

  lemma {:induction false} LawfulNext(log: seq<SourceEvent>, e: SourceEvent)
    ensures AllLawful(log + [e]) <==> AllLawful(log) && Lawful(log, e)
  {
    var log' := log + [e];
    assert log'[..|log|] == log && log'[|log|] == e;
    assert forall i :: 0 <= i < |log| ==> log'[..i] == log[..i] && log'[i] == log[i];
  }

  lemma {:induction false} StepByLog(log: seq<SourceEvent>, e: SourceEvent)
    requires Project(log).Some? && ProposersOk(Project(log).value)
    ensures Imports(Project(log).value, e) <==> Lawful(log, e)
    ensures Imports(Project(log).value, e) ==> ProposersOk(Imported(Project(log).value, e))
  {
    var r := Project(log).value;
    AdmissionIsHistory(log);
    ImportsByLog(r, e);
    if Imports(r, e) {
      ProposersKept(r, e);
    }
  }

  /** A log passes the source gate exactly if each of its events is lawful after the ones before it. */
  lemma {:induction false} ImportableIffLawful(log: seq<SourceEvent>)
    ensures Project(log).Some? <==> AllLawful(log)
    ensures Project(log).Some? ==> ProposersOk(Project(log).value)
  {
    if log == [] {
      assert ProposersOk(EMPTY_REMOTE);
    } else {
      var front, e := log[..|log| - 1], log[|log| - 1];
      ImportableIffLawful(front);
      assert front + [e] == log;
      LawfulNext(front, e);
      if Project(front).Some? {
        StepByLog(front, e);
      }
    }
  }

  /** The origin accepts exactly what is lawful after its log, reviews only if they can be traced. */
  lemma {:induction false} OriginDecidesByLog(cs: seq<Command>, c: Command)
    requires !c.Fetched?
    ensures Accepts(Serve(cs), c) <==> Lawful(Serve(cs).log, EventsOf(c)[0]) && (c.Assess? ==> c.traceable)
  {
    var l := Serve(cs);
    GateAgrees(cs);
    ImportableIffLawful(l.log);
    StepByLog(l.log, EventsOf(c)[0]);
    var r := Project(l.log).value;
    assert !c.AppendOther? && c.source in l.sources ==> SameGate(l.sources[c.source], r.sources[c.source]);
  }

  // ------------------------------------------------------------- the tables

  /** The origin's source tables, updated in place. */
  class SourceRegistry {
    var log: seq<SourceEvent>
    var sources: map<SourceId, LocalSource>
    var reviews: Reviews

    ghost function State(): Local
      reads this
    {
      Local(log, sources, reviews)
    }

    /** `validate_projection` and `apply_projection` for a source review. */
    method ReviewSource(s: SourceId, author: Lineage, recommendation: Recommendation, traceable: bool, evidence: nat)
      returns (r: Result<nat, Error>)
      modifies this
      ensures sources.Keys == old(sources).Keys
      ensures var c := Assess(s, author, recommendation, traceable, evidence);
        && (r.Ok? <==> Accepts(old(State()), c))
        && State() == if r.Ok? then Applied(old(State()), c) else old(State())
      ensures forall x :: x in sources && Earned(old(sources)[x]) ==> Earned(sources[x])
    {
      if !traceable {
        return Err(Validation);
      }
      if s !in sources {
        return Err(NotFound);
      }
      if sources[s].proposer == author || evidence == 0 {
        return Err(Validation);
      }
      log := log + [Review(s, author, recommendation, traceable, evidence)];
      reviews := reviews[(s, author) := ReviewRow(|log|, recommendation)];
      var approvals := |Approvers(log, reviews, s)|;
      if approvals >= 2 && sources[s].status == Proposed {
        sources := sources[s := sources[s].(status := Probation)];
      }
      assert sources == old(sources)[s := sources[s]];
      return Ok(|log|);
    }

    /** `mark_source_fetch`: no row, no update, no error. */
    method MarkSourceFetch(s: SourceId, success: bool)
      modifies this`sources
      ensures State() == if s in old(sources) then Applied(old(State()), Fetched(s, success)) else old(State())
      ensures sources.Keys == old(sources).Keys
      ensures forall x :: x in sources && Earned(old(sources)[x]) ==> Earned(sources[x])
      ensures forall x :: x in sources ==> (sources[x].status == Proposed <==> old(sources)[x].status == Proposed)
      ensures forall x :: x in sources && x != s ==> sources[x] == old(sources)[x]
    {
      if s in sources {
        var row := sources[s];
        if success {
          var status := match row.status
            case Degraded => Active
            case Probation => if row.successes >= 9 then Active else Probation
            case other => other;
          sources := sources[s := LocalSource(row.proposer, status, row.successes + 1, 0)];
        } else {
          var status := if row.failures >= 2 && row.status == Active then Degraded else row.status;
          sources := sources[s := LocalSource(row.proposer, status, row.successes, row.failures + 1)];
        }
        assert State().log == old(State()).log + EventsOf(Fetched(s, success));
      }
    }
  }

  /** One origin's federated source tables at an importer. */
  class FederatedSources {
    var log: seq<SourceEvent>
    var sources: map<SourceId, RemoteSource>
    var reviews: Reviews

    ghost function State(): Remote
      reads this
    {
      Remote(log, sources, reviews)
    }

    /** The source-review arm of `apply_federated_contribution`, then the insert of the event itself. */
    method ImportReview(s: SourceId, author: Lineage, recommendation: Recommendation, traceable: bool, evidence: nat)
      returns (r: Result<nat, Error>)
      modifies this
      ensures IsHistory(old(State())) ==> IsHistory(State())
      ensures var e := Review(s, author, recommendation, traceable, evidence);
        && (r.Ok? <==> Imports(old(State()), e))
        && State() == if r.Ok? then Imported(old(State()), e) else old(State())
    {
      if s !in sources || sources[s].proposer == author || evidence == 0 {
        return Err(Unauthorized);
      }
      ghost var before, e := State(), Review(s, author, recommendation, traceable, evidence);
      reviews := reviews[(s, author) := ReviewRow(|log| + 1, recommendation)];
      var approvals := |Approvers(log, reviews, s)|;
      if traceable && recommendation == Approve {
        approvals := approvals + 1;
      }
      if approvals >= 2 && sources[s].status == Proposed {
        sources := sources[s := sources[s].(status := Probation)];
      }
      assert sources == old(sources)[s := sources[s]];
      log := log + [Review(s, author, recommendation, traceable, evidence)];
      assert State() == Imported(before, e);
      if IsHistory(before) {
        HistoryKept(before, e);
      }
      return Ok(|log|);
    }
  }
}
