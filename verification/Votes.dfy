/**
  Topic votes: one table row per topic, voter and origin, filled from every
  origin's log as imports interleave, and the tally that decides whether a
  topic is approved.
*/
module Votes {
  import opened Common

  type Node = nat
  type Lineage = nat
  type EventId = nat

  /** The `cwtopic_` identifier hashes the signed proposal, which fixes the proposer. */
  datatype TopicId = TopicOf(proposer: Lineage, proposal: nat)

  datatype Choice = Approve | Reject | NeedsRevision

  datatype VoteEvent =
    | Propose(topic: TopicId)
    | Vote(topic: TopicId, voter: Lineage, choice: Choice, id: EventId, supersedes: seq<EventId>)
    | Unrelated

  datatype VoteRow = VoteRow(sequence: nat, event: EventId, choice: Choice)

  type VoteKey = (TopicId, Lineage, Node)
  type VoteTable = map<VoteKey, VoteRow>

  datatype Tables = Tables(topics: set<TopicId>, votes: VoteTable)

  type Logs = map<Node, seq<VoteEvent>>

  function LogOf(logs: Logs, o: Node): seq<VoteEvent>
  {
    if o in logs then logs[o] else []
  }

  // ------------------------------------------------------------- projection

  /** `require_previous_superseded`. */
  predicate SupersedesPrevious(supersedes: seq<EventId>, previous: Option<VoteRow>)
  {
    match previous
    case Some(row) => |supersedes| == 1 && supersedes[0] == row.event
    case None => supersedes == []
  }

  function Stored(votes: VoteTable, k: VoteKey): Option<VoteRow>
  {
    if k in votes then Some(votes[k]) else None
  }

  /** `validate_federated_commons_state`: the topic may come from any origin, or not be known yet. */
  predicate Imports(t: Tables, o: Node, e: VoteEvent)
  {
    e.Vote? ==>
      && !(e.topic in t.topics && e.topic.proposer == e.voter)
      && SupersedesPrevious(e.supersedes, Stored(t.votes, (e.topic, e.voter, o)))
  }

  /** The upsert, `WHERE excluded.origin_sequence > forum_topic_votes.origin_sequence`. */
  function Upsert(votes: VoteTable, k: VoteKey, row: VoteRow): VoteTable
  {
    if k in votes && row.sequence <= votes[k].sequence then votes else votes[k := row]
  }

  /** `project_commons_contribution` of event number `n` of origin `o`. */
  function Projected(t: Tables, o: Node, n: nat, e: VoteEvent): Tables
  {
    match e
    case Propose(topic) => t.(topics := t.topics + {topic})
    case Vote(topic, voter, choice, id, _) => t.(votes := Upsert(t.votes, (topic, voter, o), VoteRow(n, id, choice)))
    case Unrelated => t
  }

  /** How many events of `o` a schedule has imported. */
  function Count(schedule: seq<Node>, o: Node): nat
  {
    if schedule == [] then 0
    else Count(schedule[..|schedule| - 1], o) + if schedule[|schedule| - 1] == o then 1 else 0
  }

  /** The tables after a schedule: each entry imports the next event of that origin's log. */
  function Run(logs: Logs, schedule: seq<Node>): Option<Tables>
  {
    if schedule == [] then Some(Tables({}, map[]))
    else
      var front, o := schedule[..|schedule| - 1], schedule[|schedule| - 1];
      var t := Run(logs, front);
      var i := Count(front, o);
      if t.None? || i >= |LogOf(logs, o)| || !Imports(t.value, o, LogOf(logs, o)[i]) then None
      else Some(Projected(t.value, o, i + 1, LogOf(logs, o)[i]))
  }

  // ------------------------------------------------- the table, from the logs alone

  /** The row of a voter's last vote on a topic in one log. */
  function LastVote(log: seq<VoteEvent>, topic: TopicId, voter: Lineage): (r: Option<VoteRow>)
    ensures r.Some? ==> 1 <= r.value.sequence <= |log|
  {
    if log == [] then None
    else
      var e := log[|log| - 1];
      if e.Vote? && e.topic == topic && e.voter == voter then Some(VoteRow(|log|, e.id, e.choice))
      else LastVote(log[..|log| - 1], topic, voter)
  }

  function Taken(logs: Logs, schedule: seq<Node>, o: Node): seq<VoteEvent>
  {
    LogOf(logs, o)[..Min(Count(schedule, o), |LogOf(logs, o)|)]
  }

  function Expected(logs: Logs, schedule: seq<Node>, k: VoteKey): Option<VoteRow>
  {
    LastVote(Taken(logs, schedule, k.2), k.0, k.1)
  }

  ghost predicate Proposed(logs: Logs, schedule: seq<Node>, topic: TopicId)
  {
    exists o :: Propose(topic) in Taken(logs, schedule, o)
  }

  ghost predicate VotesAreLast(logs: Logs, schedule: seq<Node>, votes: VoteTable)
  {
    forall k: VoteKey :: RowIsLast(logs, schedule, votes, k)
  }

  /** The table and the log agree on one row, or on its absence. */
  predicate RowIsLast(logs: Logs, schedule: seq<Node>, votes: VoteTable, k: VoteKey)
  {
    Stored(votes, k) == Expected(logs, schedule, k)
  }

  ghost predicate TopicsAreProposed(logs: Logs, schedule: seq<Node>, topics: set<TopicId>)
  {
    forall topic :: topic in topics <==> Proposed(logs, schedule, topic)
  }

  lemma {:induction false} TakenStep(logs: Logs, schedule: seq<Node>, o: Node, p: Node)
    requires Count(schedule, o) < |LogOf(logs, o)|
    ensures Taken(logs, schedule + [o], p) ==
      if p == o then Taken(logs, schedule, p) + [LogOf(logs, o)[Count(schedule, o)]] else Taken(logs, schedule, p)
  {
    CountStep(schedule, o, p);
    if p == o {
      var log, c := LogOf(logs, o), Count(schedule, o);
      assert log[..c + 1] == log[..c] + [log[c]];
    }
  }

  lemma {:induction false} CountStep(schedule: seq<Node>, o: Node, p: Node)
    ensures Count(schedule + [o], p) == Count(schedule, p) + if p == o then 1 else 0
  {
    assert (schedule + [o])[..|schedule|] == schedule;
  }

  lemma {:induction false} LastVoteStep(log: seq<VoteEvent>, e: VoteEvent, topic: TopicId, voter: Lineage)
    ensures LastVote(log + [e], topic, voter) ==
      if e.Vote? && e.topic == topic && e.voter == voter then Some(VoteRow(|log| + 1, e.id, e.choice))
      else LastVote(log, topic, voter)
  {
    assert (log + [e])[..|log|] == log;
  }

  /** A row is replaced only by a later event of the same origin, so the upsert's guard never keeps an old one. */
  lemma {:induction false} RowStep(votes: VoteTable, log: seq<VoteEvent>, e: VoteEvent, k: VoteKey)
    requires e.Vote? && k == (e.topic, e.voter, k.2) && Stored(votes, k) == LastVote(log, k.0, k.1)
    ensures Stored(Upsert(votes, k, VoteRow(|log| + 1, e.id, e.choice)), k) == LastVote(log + [e], k.0, k.1)
  {
    LastVoteStep(log, e, k.0, k.1);
  }

  lemma {:induction false} VoteStepAt(logs: Logs, schedule: seq<Node>, o: Node, t: Tables, k: VoteKey)
    requires Count(schedule, o) < |LogOf(logs, o)| && Stored(t.votes, k) == Expected(logs, schedule, k)
    ensures var t' := Projected(t, o, Count(schedule, o) + 1, LogOf(logs, o)[Count(schedule, o)]);
      Stored(t'.votes, k) == Expected(logs, schedule + [o], k)
  {
    TakenStep(logs, schedule, o, k.2);
    ProjectedRow(t, o, Count(schedule, o) + 1, LogOf(logs, o)[Count(schedule, o)], Taken(logs, schedule, k.2), k);
  }

  lemma {:induction false} ProjectedRow(t: Tables, o: Node, n: nat, e: VoteEvent, log: seq<VoteEvent>, k: VoteKey)
    requires Stored(t.votes, k) == LastVote(log, k.0, k.1) && (k.2 == o ==> n == |log| + 1)
    ensures Stored(Projected(t, o, n, e).votes, k) == LastVote(if k.2 == o then log + [e] else log, k.0, k.1)
  {
    if k.2 == o {
      if e.Vote? && k == (e.topic, e.voter, o) {
        RowStep(t.votes, log, e, k);
      } else {
        LastVoteStep(log, e, k.0, k.1);
      }
    }
  }

  lemma {:induction false} VotesStep(logs: Logs, schedule: seq<Node>, o: Node, t: Tables)
    requires Count(schedule, o) < |LogOf(logs, o)| && VotesAreLast(logs, schedule, t.votes)
    ensures VotesAreLast(logs, schedule + [o],
      Projected(t, o, Count(schedule, o) + 1, LogOf(logs, o)[Count(schedule, o)]).votes)
  {
    var t' := Projected(t, o, Count(schedule, o) + 1, LogOf(logs, o)[Count(schedule, o)]);
    forall k: VoteKey
      ensures RowIsLast(logs, schedule + [o], t'.votes, k)
    {
      assert RowIsLast(logs, schedule, t.votes, k);
      VoteStepAt(logs, schedule, o, t, k);
    }
  }

  lemma {:induction false} TopicsStep(logs: Logs, schedule: seq<Node>, o: Node, t: Tables)
    requires Count(schedule, o) < |LogOf(logs, o)| && TopicsAreProposed(logs, schedule, t.topics)
    ensures TopicsAreProposed(logs, schedule + [o],
      Projected(t, o, Count(schedule, o) + 1, LogOf(logs, o)[Count(schedule, o)]).topics)
  {
    var e := LogOf(logs, o)[Count(schedule, o)];
    var t' := Projected(t, o, Count(schedule, o) + 1, e);
    forall topic: TopicId
      ensures topic in t'.topics <==> Proposed(logs, schedule + [o], topic)
    {
      if topic in t.topics {
        var p :| Propose(topic) in Taken(logs, schedule, p);
        TakenStep(logs, schedule, o, p);
        assert Propose(topic) in Taken(logs, schedule + [o], p);
      }
      if e == Propose(topic) {
        TakenStep(logs, schedule, o, o);
        assert Propose(topic) in Taken(logs, schedule + [o], o);
      }
      if Proposed(logs, schedule + [o], topic) && e != Propose(topic) {
        var p :| Propose(topic) in Taken(logs, schedule + [o], p);
        TakenStep(logs, schedule, o, p);
        assert Propose(topic) in Taken(logs, schedule, p);
      }
    }
  }

  /** Whatever the interleaving, an accepted schedule leaves each voter's last vote per origin, and nothing else. */
  lemma {:induction false} TableIsLastVotes(logs: Logs, schedule: seq<Node>)
    requires Run(logs, schedule).Some?
    ensures var t := Run(logs, schedule).value;
      VotesAreLast(logs, schedule, t.votes) && TopicsAreProposed(logs, schedule, t.topics)
  {
    if schedule != [] {
      var front, o := schedule[..|schedule| - 1], schedule[|schedule| - 1];
      TableIsLastVotes(logs, front);
      assert schedule == front + [o];
      VotesStep(logs, front, o, Run(logs, front).value);
      TopicsStep(logs, front, o, Run(logs, front).value);
    }
  }

  ghost predicate SameProgress(a: seq<Node>, b: seq<Node>)
  {
    forall o :: Count(a, o) == Count(b, o)
  }

  /** Accepted interleavings of the same log prefixes end in the same tables, hence the same tallies and verdicts. */
  lemma {:induction false} VotesConverge(logs: Logs, a: seq<Node>, b: seq<Node>)
    requires SameProgress(a, b) && Run(logs, a).Some? && Run(logs, b).Some?
    ensures Run(logs, a) == Run(logs, b)
  {
    TableIsLastVotes(logs, a);
    TableIsLastVotes(logs, b);
    var ta, tb := Run(logs, a).value, Run(logs, b).value;
    forall k: VoteKey
      ensures Stored(ta.votes, k) == Stored(tb.votes, k)
    {
      assert Taken(logs, a, k.2) == Taken(logs, b, k.2);
      assert RowIsLast(logs, a, ta.votes, k) && RowIsLast(logs, b, tb.votes, k);
    }
    StoredDetermines(ta.votes, tb.votes);
    forall topic: TopicId
      ensures topic in ta.topics <==> topic in tb.topics
    {
      assert forall o :: Taken(logs, a, o) == Taken(logs, b, o);
      assert Proposed(logs, a, topic) <==> Proposed(logs, b, topic);
    }
    assert ta.topics == tb.topics;
  }

  lemma {:induction false} StoredDetermines(v: VoteTable, w: VoteTable)
    requires forall k :: Stored(v, k) == Stored(w, k)
    ensures v == w
  {
    forall k: VoteKey
      ensures (k in v <==> k in w) && (k in v ==> v[k] == w[k])
    {
      assert Stored(v, k) == Stored(w, k);
    }
    assert v.Keys == w.Keys;
  }

  // ------------------------------------------------- which interleavings are accepted

  /** Within one log every vote supersedes exactly its voter's previous one on the topic. */
  predicate Chained(log: seq<VoteEvent>)
  {
    log != [] ==>
      && Chained(log[..|log| - 1])
      && var e := log[|log| - 1];
      && (e.Vote? ==> SupersedesPrevious(e.supersedes, LastVote(log[..|log| - 1], e.topic, e.voter)))
  }

  /** Entry `j` is a vote of the same lineage on the same topic as entry `i`. */
  predicate SameVoter(log: seq<VoteEvent>, j: int, i: int)
    requires 0 <= j < |log| && 0 <= i < |log|
  {
    log[i].Vote? && log[j].Vote? && log[j].topic == log[i].topic && log[j].voter == log[i].voter
  }

  /** The vote before entry `i` by the same lineage on the same topic. */
  ghost predicate PreviousVote(log: seq<VoteEvent>, j: int, i: int)
    requires 0 <= i < |log|
  {
    0 <= j < i && SameVoter(log, j, i) && forall k :: j < k < i ==> !SameVoter(log, k, i)
  }

  /** A first vote supersedes nothing; a later one names the one before it, and only that. */
  ghost predicate SupersedesByIndex(log: seq<VoteEvent>, i: int)
    requires 0 <= i < |log|
  {
    log[i].Vote? ==>
      && ((forall j :: 0 <= j < i ==> !SameVoter(log, j, i)) ==> log[i].supersedes == [])
      && (forall j :: PreviousVote(log, j, i) ==> log[i].supersedes == [log[j].id])
  }

  lemma {:induction false} LastVoteIs(log: seq<VoteEvent>, i: nat, n: nat)
    requires n <= i < |log| && log[i].Vote? && forall k :: n <= k < i ==> !SameVoter(log, k, i)
    ensures var last := LastVote(log[..n], log[i].topic, log[i].voter);
      && (last.None? <==> forall j :: 0 <= j < i ==> !SameVoter(log, j, i))
      && (last.Some? ==>
        var j := last.value.sequence - 1;
        PreviousVote(log, j, i) && last.value.event == log[j].id && last.value.choice == log[j].choice)
    decreases n
  {
    if n > 0 {
      assert log[..n][..n - 1] == log[..n - 1];
      if SameVoter(log, n - 1, i) {
        assert PreviousVote(log, n - 1, i);
      } else {
        LastVoteIs(log, i, n - 1);
      }
    }
  }

  /** There is only one previous vote. */
  lemma {:induction false} OnePrevious(log: seq<VoteEvent>, i: nat, j: int, k: int)
    requires i < |log| && PreviousVote(log, j, i) && PreviousVote(log, k, i)
    ensures j == k
  {
  }

  lemma {:induction false} SupersessionAt(log: seq<VoteEvent>, i: nat)
    requires i < |log| && log[i].Vote?
    ensures SupersedesPrevious(log[i].supersedes, LastVote(log[..i], log[i].topic, log[i].voter)) <==>
      SupersedesByIndex(log, i)
  {
    LastVoteIs(log, i, i);
    var last := LastVote(log[..i], log[i].topic, log[i].voter);
    if last.Some? {
      var j := last.value.sequence - 1;
      forall k | PreviousVote(log, k, i)
        ensures k == j
      {
        OnePrevious(log, i, j, k);
      }
    }
  }

  /** The chain of one voter's votes, by position. */
  lemma {:induction false} ChainedByIndex(log: seq<VoteEvent>)
    ensures Chained(log) <==> forall i :: 0 <= i < |log| ==> SupersedesByIndex(log, i)
  {
    if log != [] {
      var front := log[..|log| - 1];
      ChainedByIndex(front);
      forall i | 0 <= i < |front|
        ensures SupersedesByIndex(front, i) <==> SupersedesByIndex(log, i)
      {
        IndexInPrefix(log, i);
      }
      var e := log[|log| - 1];
      if e.Vote? {
        SupersessionAt(log, |log| - 1);
      }
    }
  }

  lemma {:induction false} IndexInPrefix(log: seq<VoteEvent>, i: nat)
    requires i < |log| - 1
    ensures SupersedesByIndex(log[..|log| - 1], i) <==> SupersedesByIndex(log, i)
  {
    var front := log[..|log| - 1];
    forall j | 0 <= j < |front|
      ensures SameVoter(front, j, i) <==> SameVoter(log, j, i)
    {
    }
    forall j
      ensures PreviousVote(front, j, i) <==> PreviousVote(log, j, i)
    {
    }
  }

  ghost predicate AllChained(logs: Logs, schedule: seq<Node>)
  {
    forall o: Node :: ChainedAt(logs, schedule, o)
  }

  predicate ChainedAt(logs: Logs, schedule: seq<Node>, o: Node)
  {
    Chained(Taken(logs, schedule, o))
  }

  predicate WithinLogs(logs: Logs, schedule: seq<Node>)
  {
    schedule != [] ==>
      && WithinLogs(logs, schedule[..|schedule| - 1])
      && Count(schedule[..|schedule| - 1], schedule[|schedule| - 1]) < |LogOf(logs, schedule[|schedule| - 1])|
  }

  predicate SelfVote(e: VoteEvent)
  {
    e.Vote? && e.topic.proposer == e.voter
  }

  /** No vote of a proposer on its own topic arrives after the topic itself. */
  ghost predicate NoLateSelfVote(logs: Logs, schedule: seq<Node>)
  {
    schedule != [] ==>
      var front, o := schedule[..|schedule| - 1], schedule[|schedule| - 1];
      && NoLateSelfVote(logs, front)
      && (Count(front, o) < |LogOf(logs, o)| ==>
            var e := LogOf(logs, o)[Count(front, o)];
            !(SelfVote(e) && Proposed(logs, front, e.topic)))
  }

  lemma {:induction false} ChainedNext(log: seq<VoteEvent>, e: VoteEvent)
    ensures Chained(log + [e]) <==>
      Chained(log) && (e.Vote? ==> SupersedesPrevious(e.supersedes, LastVote(log, e.topic, e.voter)))
  {
    assert (log + [e])[..|log|] == log;
  }

  /** Only the log that was taken from can stop being chained, and only through its next event. */
  lemma {:induction false} ChainedStepAt(logs: Logs, schedule: seq<Node>, o: Node, p: Node)
    requires Count(schedule, o) < |LogOf(logs, o)|
    ensures var e := LogOf(logs, o)[Count(schedule, o)];
      ChainedAt(logs, schedule + [o], p) <==>
        && ChainedAt(logs, schedule, p)
        && (p == o && e.Vote? ==> SupersedesPrevious(e.supersedes, Expected(logs, schedule, (e.topic, e.voter, o))))
  {
    TakenStep(logs, schedule, o, p);
    if p == o {
      ChainedNext(Taken(logs, schedule, o), LogOf(logs, o)[Count(schedule, o)]);
    }
  }

  lemma {:induction false} ChainedStep(logs: Logs, schedule: seq<Node>, o: Node)
    requires Count(schedule, o) < |LogOf(logs, o)|
    ensures var e := LogOf(logs, o)[Count(schedule, o)];
      AllChained(logs, schedule + [o]) <==>
        && AllChained(logs, schedule)
        && (e.Vote? ==> SupersedesPrevious(e.supersedes, Expected(logs, schedule, (e.topic, e.voter, o))))
  {
    forall p: Node
      ensures ChainedAt(logs, schedule + [o], p) ==> ChainedAt(logs, schedule, p)
    {
      ChainedStepAt(logs, schedule, o, p);
    }
    if AllChained(logs, schedule) && ChainedAt(logs, schedule + [o], o) {
      forall p: Node
        ensures ChainedAt(logs, schedule + [o], p)
      {
        assert ChainedAt(logs, schedule, p);
        ChainedStepAt(logs, schedule, o, p);
      }
    }
    if AllChained(logs, schedule + [o]) {
      assert forall p: Node :: ChainedAt(logs, schedule + [o], p);
    }
    ChainedStepAt(logs, schedule, o, o);
  }

  /**
    A schedule is accepted exactly if every log supersedes properly, which no
    interleaving can change, and no proposer's own vote arrives after its topic,
    which the interleaving decides.
  */
  lemma {:induction false} AcceptedIff(logs: Logs, schedule: seq<Node>)
    ensures Run(logs, schedule).Some? <==>
      WithinLogs(logs, schedule) && AllChained(logs, schedule) && NoLateSelfVote(logs, schedule)
  {
    if schedule != [] {
      var front, o := schedule[..|schedule| - 1], schedule[|schedule| - 1];
      assert schedule == front + [o];
      AcceptedIff(logs, front);
      if Count(front, o) < |LogOf(logs, o)| {
        var e := LogOf(logs, o)[Count(front, o)];
        ChainedStep(logs, front, o);
        if Run(logs, front).Some? {
          TableIsLastVotes(logs, front);
          var t := Run(logs, front).value;
          assert e.Vote? ==> RowIsLast(logs, front, t.votes, (e.topic, e.voter, o));
          assert e.Vote? ==> (e.topic in t.topics <==> Proposed(logs, front, e.topic));
        }
      }
    }
  }

  /** A proposer's own vote held at another origin imports before the topic does, and blocks that origin's log after. */
  lemma {:induction false} ArrivalOrderDecides(topic: TopicId, id: EventId)
    ensures var logs := map[0 := [Propose(topic)], 1 := [Vote(topic, topic.proposer, Approve, id, [])]];
      SameProgress([1, 0], [0, 1]) && Run(logs, [1, 0]).Some? && Run(logs, [0, 1]).None?
  {
    var logs: Logs := map[0 := [Propose(topic)], 1 := [Vote(topic, topic.proposer, Approve, id, [])]];
    assert [1, 0][..1] == [1] && [0, 1][..1] == [0] && [1][..0] == [] && [0][..0] == [];
    assert Run(logs, []) == Some(Tables({}, map[]));
    assert Run(logs, [1]) == Some(Tables({}, map[(topic, topic.proposer, 1) := VoteRow(1, id, Approve)]));
    assert Tables({}, map[]).topics + {topic} == {topic};
    assert Run(logs, [0]) == Some(Tables({topic}, map[]));
    forall o: Node
      ensures Count([1, 0], o) == Count([0, 1], o)
    {
      assert Count([1], o) == (if o == 1 then 1 else 0) && Count([0], o) == (if o == 0 then 1 else 0);
    }
  }

  // ----------------------------------------------------------- honest origins

  /** What an origin checks before it appends a vote; `known` are the topics it holds, its own and imported ones. */
  predicate LocallyAccepts(known: set<TopicId>, log: seq<VoteEvent>, e: VoteEvent)
  {
    e.Vote? ==>
      && e.topic in known && e.topic.proposer != e.voter
      && SupersedesPrevious(e.supersedes, LastVote(log, e.topic, e.voter))
  }

  /** Every event of the log was accepted that way when it was appended. */
  ghost predicate Honest(log: seq<VoteEvent>)
  {
    log != [] ==>
      Honest(log[..|log| - 1]) && CouldAppend(log[..|log| - 1], log[|log| - 1])
  }

  ghost predicate CouldAppend(log: seq<VoteEvent>, e: VoteEvent)
  {
    exists known :: LocallyAccepts(known, log, e)
  }

  lemma {:induction false} HonestPrefix(log: seq<VoteEvent>, n: nat)
    requires Honest(log) && n <= |log|
    ensures Honest(log[..n])
  {
    if n == |log| {
      assert log[..n] == log;
    } else {
      HonestPrefix(log[..|log| - 1], n);
      assert log[..|log| - 1][..n] == log[..n];
    }
  }

  lemma {:induction false} HonestIsChained(log: seq<VoteEvent>)
    requires Honest(log)
    ensures Chained(log)
    ensures forall i :: 0 <= i < |log| ==> !SelfVote(log[i])
  {
    if log != [] {
      HonestIsChained(log[..|log| - 1]);
    }
  }

  lemma {:induction false} NoSelfVotes(logs: Logs, schedule: seq<Node>)
    requires forall o :: Honest(LogOf(logs, o))
    ensures NoLateSelfVote(logs, schedule)
  {
    if schedule != [] {
      NoSelfVotes(logs, schedule[..|schedule| - 1]);
      HonestIsChained(LogOf(logs, schedule[|schedule| - 1]));
    }
  }

  /** The logs of honest origins import in every order. */
  lemma {:induction false} HonestAlwaysImports(logs: Logs, schedule: seq<Node>)
    requires (forall o :: Honest(LogOf(logs, o))) && WithinLogs(logs, schedule)
    ensures Run(logs, schedule).Some?
  {
    forall o: Node
      ensures ChainedAt(logs, schedule, o)
    {
      HonestPrefix(LogOf(logs, o), Min(Count(schedule, o), |LogOf(logs, o)|));
      HonestIsChained(Taken(logs, schedule, o));
    }
    NoSelfVotes(logs, schedule);
    AcceptedIff(logs, schedule);
  }

  /**
    So among honest origins all importers with the same progress hold the same
    tables, with no condition on the order.
  */
  lemma {:induction false} HonestVotesConverge(logs: Logs, a: seq<Node>, b: seq<Node>)
    requires forall o :: Honest(LogOf(logs, o))
    requires WithinLogs(logs, a) && WithinLogs(logs, b) && SameProgress(a, b)
    ensures Run(logs, a).Some? && Run(logs, a) == Run(logs, b)
  {
    HonestAlwaysImports(logs, a);
    HonestAlwaysImports(logs, b);
    VotesConverge(logs, a, b);
  }

  // ------------------------------------------------------------------ tally

  datatype Tally = Tally(approvals: nat, rejections: nat, needsRevision: nat, conflicted: seq<Lineage>)

  /** What a lineage said about a topic, over all origins. */
  function Choices(votes: VoteTable, topic: TopicId, voter: Lineage): set<Choice>
  {
    set k | k in votes && k.0 == topic && k.1 == voter :: votes[k].choice
  }

  /** The lineages other than the proposer with a vote on the topic. */
  function Voters(votes: VoteTable, topic: TopicId): set<Lineage>
  {
    set k | k in votes && k.0 == topic && k.1 != topic.proposer :: k.1
  }

  /** Those of `who` who said exactly `choice`, at every origin where they voted. */
  function Saying(votes: VoteTable, topic: TopicId, who: set<Lineage>, choice: Choice): set<Lineage>
  {
    set v | v in who && Choices(votes, topic, v) == {choice}
  }

  function Conflicted(votes: VoteTable, topic: TopicId, who: set<Lineage>): set<Lineage>
  {
    set v | v in who && |Choices(votes, topic, v)| != 1
  }

  /** Every voter counts once: for one choice, or as conflicted; the proposer counts nowhere. */
  lemma {:induction false} EachVoterOnce(votes: VoteTable, topic: TopicId, v: Lineage)
    ensures var who := Voters(votes, topic);
      var classes := [Saying(votes, topic, who, Approve), Saying(votes, topic, who, Reject),
                      Saying(votes, topic, who, NeedsRevision), Conflicted(votes, topic, who)];
      && (v in who <==> exists i :: 0 <= i < 4 && v in classes[i])
      && (forall i, j :: 0 <= i < 4 && 0 <= j < 4 && v in classes[i] && v in classes[j] ==> i == j)
      && (forall i :: 0 <= i < 4 ==> topic.proposer !in classes[i])
  {
    var who := Voters(votes, topic);
    var classes := [Saying(votes, topic, who, Approve), Saying(votes, topic, who, Reject),
                    Saying(votes, topic, who, NeedsRevision), Conflicted(votes, topic, who)];
    var c := Choices(votes, topic, v);
    if v in who {
      if |c| == 1 {
        var x :| x in c;
        assert |c - {x}| == 0;
        assert c == {x};
        match x
        case Approve => assert v in classes[0];
        case Reject => assert v in classes[1];
        case NeedsRevision => assert v in classes[2];
      } else {
        assert v in classes[3];
      }
    }
  }

  ghost predicate Sorted(s: seq<Lineage>)
  {
    forall i, j :: 0 <= i < j < |s| ==> s[i] < s[j]
  }

  /** What `topic_vote_tally` promises. */
  ghost predicate IsTally(votes: VoteTable, topic: TopicId, who: set<Lineage>, t: Tally)
  {
    && t.approvals == |Saying(votes, topic, who, Approve)|
    && t.rejections == |Saying(votes, topic, who, Reject)|
    && t.needsRevision == |Saying(votes, topic, who, NeedsRevision)|
    && Sorted(t.conflicted) && (forall v :: v in t.conflicted <==> v in Conflicted(votes, topic, who))
  }

  /** The tally after one more lineage, larger than all before it. */
  function Counted(t: Tally, v: Lineage, choices: set<Choice>): Tally
  {
    if |choices| != 1 then t.(conflicted := t.conflicted + [v])
    else if Approve in choices then t.(approvals := t.approvals + 1)
    else if Reject in choices then t.(rejections := t.rejections + 1)
    else t.(needsRevision := t.needsRevision + 1)
  }

  lemma {:induction false} SayingStep(votes: VoteTable, topic: TopicId, done: set<Lineage>, v: Lineage, choice: Choice)
    requires v !in done
    ensures |Saying(votes, topic, done + {v}, choice)| ==
      |Saying(votes, topic, done, choice)| + if Choices(votes, topic, v) == {choice} then 1 else 0
  {
    var before, after := Saying(votes, topic, done, choice), Saying(votes, topic, done + {v}, choice);
    if Choices(votes, topic, v) == {choice} {
      assert after == before + {v};
    } else {
      assert after == before;
    }
  }

  lemma {:induction false} OneChoice(choices: set<Choice>, c: Choice)
    requires |choices| == 1 && c in choices
    ensures choices == {c}
  {
    assert |choices - {c}| == 0;
  }

  lemma {:induction false} TallyStep(votes: VoteTable, topic: TopicId, done: set<Lineage>, v: Lineage, t: Tally)
    requires IsTally(votes, topic, done, t) && forall d :: d in done ==> d < v
    ensures IsTally(votes, topic, done + {v}, Counted(t, v, Choices(votes, topic, v)))
  {
    var choices := Choices(votes, topic, v);
    SayingStep(votes, topic, done, v, Approve);
    SayingStep(votes, topic, done, v, Reject);
    SayingStep(votes, topic, done, v, NeedsRevision);
    if |choices| == 1 {
      var c :| c in choices;
      OneChoice(choices, c);
      assert c == Approve || c == Reject || c == NeedsRevision;
      assert Conflicted(votes, topic, done + {v}) == Conflicted(votes, topic, done);
    } else {
      assert Conflicted(votes, topic, done + {v}) == Conflicted(votes, topic, done) + {v};
      assert forall i :: 0 <= i < |t.conflicted| ==> t.conflicted[i] in Conflicted(votes, topic, done);
    }
  }

  lemma {:induction false} SeenStep(seen: VoteTable, k: VoteKey, row: VoteRow, topic: TopicId, v: Lineage)
    requires k !in seen
    ensures Choices(seen[k := row], topic, v) ==
      if k.0 == topic && k.1 == v then Choices(seen, topic, v) + {row.choice} else Choices(seen, topic, v)
    ensures Voters(seen[k := row], topic) ==
      if k.0 == topic && k.1 != topic.proposer then Voters(seen, topic) + {k.1} else Voters(seen, topic)
  {
    var seen' := seen[k := row];
    assert forall x | x in seen :: seen'[x] == seen[x];
    if k.0 == topic {
      assert seen'[k] == row && k in seen';
    }
    forall c | c in Choices(seen, topic, v)
      ensures c in Choices(seen', topic, v)
    {
      var x :| x in seen && x.0 == topic && x.1 == v && seen[x].choice == c;
      assert x in seen' && seen'[x].choice == c;
    }
    forall u | u in Voters(seen, topic)
      ensures u in Voters(seen', topic)
    {
      var x :| x in seen && x.0 == topic && x.1 != topic.proposer && x.1 == u;
      assert x in seen';
    }
  }

  ghost predicate IsGathered(votes: VoteTable, topic: TopicId, choices: map<Lineage, set<Choice>>)
  {
    && choices.Keys == Voters(votes, topic)
    && forall v :: v in choices ==> choices[v] == Choices(votes, topic, v)
  }

  /** Adds a row's choice to what its lineage said, unless the lineage is the proposer. */
  function Gather(
    choices: map<Lineage, set<Choice>>, topic: TopicId, k: VoteKey, choice: Choice): map<Lineage, set<Choice>>
  {
    if k.0 != topic || k.1 == topic.proposer then choices
    else choices[k.1 := (if k.1 in choices then choices[k.1] else {}) + {choice}]
  }

  lemma {:induction false} NoChoices(votes: VoteTable, topic: TopicId, v: Lineage)
    requires v != topic.proposer && v !in Voters(votes, topic)
    ensures Choices(votes, topic, v) == {}
  {
    assert forall k | k in votes && k.0 == topic && k.1 == v :: k.1 in Voters(votes, topic);
  }

  lemma {:induction false} GatherStep(
    seen: VoteTable, topic: TopicId, choices: map<Lineage, set<Choice>>, k: VoteKey, row: VoteRow)
    requires IsGathered(seen, topic, choices) && k !in seen
    ensures IsGathered(seen[k := row], topic, Gather(choices, topic, k, row.choice))
  {
    var choices' := Gather(choices, topic, k, row.choice);
    SeenStep(seen, k, row, topic, k.1);
    forall v | v in choices'
      ensures choices'[v] == Choices(seen[k := row], topic, v)
    {
      SeenStep(seen, k, row, topic, v);
      if v !in choices {
        NoChoices(seen, topic, v);
      }
    }
  }

  /** The choices of each lineage but the proposer, gathered row by row. */
  method GatherChoices(votes: VoteTable, topic: TopicId) returns (choices: map<Lineage, set<Choice>>)
    ensures IsGathered(votes, topic, choices)
  {
    choices := map[];
    var rows := votes.Keys;
    ghost var seen: VoteTable := map[];
    while rows != {}
      invariant rows <= votes.Keys && seen.Keys == votes.Keys - rows
      invariant forall k :: k in seen ==> seen[k] == votes[k]
      invariant IsGathered(seen, topic, choices)
      decreases rows
    {
      var k :| k in rows;
      GatherStep(seen, topic, choices, k, votes[k]);
      choices := Gather(choices, topic, k, votes[k].choice);
      seen := seen[k := votes[k]];
      rows := rows - {k};
    }
    assert seen == votes;
  }

  predicate IsLeast(s: set<Lineage>, v: Lineage)
  {
    v in s && forall w :: w in s ==> v <= w
  }

  lemma {:induction false} LeastExists(s: set<Lineage>)
    requires s != {}
    ensures exists v :: IsLeast(s, v)
  {
    var x :| x in s;
    var rest := s - {x};
    if rest == {} {
      assert s == {x};
      assert IsLeast(s, x);
    } else {
      LeastExists(rest);
      var v :| IsLeast(rest, v);
      assert forall w :: w in s ==> w == x || w in rest;
      assert IsLeast(s, if x < v then x else v);
    }
  }

  ghost predicate Below(done: set<Lineage>, left: set<Lineage>)
  {
    forall d, l :: d in done && l in left ==> d < l
  }

  lemma {:induction false} BelowStep(done: set<Lineage>, left: set<Lineage>, v: Lineage)
    requires Below(done, left) && IsLeast(left, v)
    ensures forall d :: d in done ==> d < v
    ensures Below(done + {v}, left - {v})
  {
  }

  /** Part of the lineages are counted, and all of them come before the others. */
  ghost predicate TalliedTo(votes: VoteTable, topic: TopicId, done: set<Lineage>, left: set<Lineage>, t: Tally)
  {
    && done + left == Voters(votes, topic) && Below(done, left)
    && IsTally(votes, topic, done, t)
  }

  lemma {:induction false} TalliedNext(
    votes: VoteTable, topic: TopicId, done: set<Lineage>, left: set<Lineage>, t: Tally, v: Lineage)
    requires TalliedTo(votes, topic, done, left, t) && IsLeast(left, v)
    ensures TalliedTo(votes, topic, done + {v}, left - {v}, Counted(t, v, Choices(votes, topic, v)))
  {
    BelowStep(done, left, v);
    TallyStep(votes, topic, done, v, t);
  }

  /** `topic_vote_tally`. */
  method TopicVoteTally(votes: VoteTable, topic: TopicId) returns (t: Tally)
    ensures IsTally(votes, topic, Voters(votes, topic), t)
  {
    var choices := GatherChoices(votes, topic);
    t := Tally(0, 0, 0, []);
    var left := choices.Keys;
    ghost var done: set<Lineage> := {};
    NobodyYet(votes, topic);
    while left != {}
      invariant left <= choices.Keys && TalliedTo(votes, topic, done, left, t)
      decreases left
    {
      LeastExists(left);
      var v :| IsLeast(left, v);
      TalliedNext(votes, topic, done, left, t, v);
      t := Counted(t, v, choices[v]);
      done := done + {v};
      left := left - {v};
    }
    assert done == Voters(votes, topic);
  }

  lemma {:induction false} NobodyYet(votes: VoteTable, topic: TopicId)
    ensures IsTally(votes, topic, {}, Tally(0, 0, 0, []))
  {
    assert forall c :: Saying(votes, topic, {}, c) == {};
    assert Conflicted(votes, topic, {}) == {};
  }

  /** Some origin holds this choice as the lineage's last vote on the topic. */
  ghost predicate Says(votes: VoteTable, topic: TopicId, v: Lineage, c: Choice)
  {
    exists o: Node :: SaysAt(votes, topic, v, c, o)
  }

  predicate SaysAt(votes: VoteTable, topic: TopicId, v: Lineage, c: Choice, o: Node)
  {
    (topic, v, o) in votes && votes[(topic, v, o)].choice == c
  }

  /** The lineage is not the proposer, and says this and nothing else. */
  ghost predicate SaysOnly(votes: VoteTable, topic: TopicId, v: Lineage, c: Choice)
  {
    v != topic.proposer && Says(votes, topic, v, c) && forall d :: d != c ==> !Says(votes, topic, v, d)
  }

  lemma {:induction false} ChoicesMean(votes: VoteTable, topic: TopicId, v: Lineage, c: Choice)
    ensures c in Choices(votes, topic, v) <==> Says(votes, topic, v, c)
    ensures c in Choices(votes, topic, v) && v != topic.proposer ==> v in Voters(votes, topic)
    ensures v in Voters(votes, topic) ==> v != topic.proposer && Choices(votes, topic, v) != {}
  {
    if c in Choices(votes, topic, v) {
      var k :| k in votes && k.0 == topic && k.1 == v && votes[k].choice == c;
      assert SaysAt(votes, topic, v, c, k.2);
    }
    if Says(votes, topic, v, c) {
      var o: Node :| SaysAt(votes, topic, v, c, o);
      assert votes[(topic, v, o)].choice in Choices(votes, topic, v);
    }
    if v in Voters(votes, topic) {
      var k :| k in votes && k.0 == topic && k.1 != topic.proposer && k.1 == v;
      assert votes[k].choice in Choices(votes, topic, v);
    }
  }

  lemma {:induction false} SayingMeans(votes: VoteTable, topic: TopicId, v: Lineage, c: Choice)
    ensures v in Saying(votes, topic, Voters(votes, topic), c) <==> SaysOnly(votes, topic, v, c)
  {
    ChoicesMean(votes, topic, v, c);
    forall d: Choice
      ensures d in Choices(votes, topic, v) <==> Says(votes, topic, v, d)
    {
      ChoicesMean(votes, topic, v, d);
    }
    if SaysOnly(votes, topic, v, c) {
      assert Choices(votes, topic, v) == {c};
    }
  }

  lemma {:induction false} ConflictedMeans(votes: VoteTable, topic: TopicId, v: Lineage)
    ensures v in Conflicted(votes, topic, Voters(votes, topic)) <==>
      v != topic.proposer && exists c, d :: c != d && Says(votes, topic, v, c) && Says(votes, topic, v, d)
  {
    var choices := Choices(votes, topic, v);
    forall d: Choice
      ensures d in choices <==> Says(votes, topic, v, d)
      ensures d in choices && v != topic.proposer ==> v in Voters(votes, topic)
      ensures v in Voters(votes, topic) ==> v != topic.proposer && choices != {}
    {
      ChoicesMean(votes, topic, v, d);
    }
    ChoicesMean(votes, topic, v, Approve);
    if c, d :| c != d && c in choices && d in choices {
      if |choices| == 1 {
        OneChoice(choices, c);
      }
      assert Says(votes, topic, v, c) && Says(votes, topic, v, d);
    } else if choices != {} {
      var c :| c in choices;
      assert choices == {c};
    }
  }

  ghost predicate AreSaying(votes: VoteTable, topic: TopicId, c: Choice, who: set<Lineage>)
  {
    forall v :: v in who <==> SaysOnly(votes, topic, v, c)
  }

  lemma {:induction false} SayingAre(votes: VoteTable, topic: TopicId, c: Choice, who: set<Lineage>)
    requires AreSaying(votes, topic, c, who)
    ensures Saying(votes, topic, Voters(votes, topic), c) == who
  {
    forall v: Lineage
      ensures v in Saying(votes, topic, Voters(votes, topic), c) <==> v in who
    {
      SayingMeans(votes, topic, v, c);
    }
  }

  /**
    What a tally counts: the lineages other than the proposer that say one thing
    at every origin holding a vote of theirs; those that say two are listed.
  */
  lemma {:induction false} TallyMeans(
    votes: VoteTable, topic: TopicId, t: Tally, yes: set<Lineage>, no: set<Lineage>, revise: set<Lineage>, v: Lineage)
    requires IsTally(votes, topic, Voters(votes, topic), t)
    requires AreSaying(votes, topic, Approve, yes) && AreSaying(votes, topic, Reject, no)
    requires AreSaying(votes, topic, NeedsRevision, revise)
    ensures (t.approvals, t.rejections, t.needsRevision) == (|yes|, |no|, |revise|)
    ensures v in t.conflicted <==>
      v != topic.proposer && exists c, d :: c != d && Says(votes, topic, v, c) && Says(votes, topic, v, d)
  {
    SayingAre(votes, topic, Approve, yes);
    SayingAre(votes, topic, Reject, no);
    SayingAre(votes, topic, NeedsRevision, revise);
    ConflictedMeans(votes, topic, v);
  }

  /** `topic_is_approved`: two voters say only "approve", and more than say only "reject". */
  method TopicIsApproved(t: Tables, topic: TopicId) returns (r: Result<bool, Error>)
    ensures r.Ok? <==> topic in t.topics
    ensures r.Ok? ==>
      var approvals := |Saying(t.votes, topic, Voters(t.votes, topic), Approve)|;
      r.value <==> approvals >= 2 && approvals > |Saying(t.votes, topic, Voters(t.votes, topic), Reject)|
  {
    if topic !in t.topics {
      return Err(NotFound);
    }
    var tally := TopicVoteTally(t.votes, topic);
    return Ok(tally.approvals >= 2 && tally.approvals > tally.rejections);
  }
}
