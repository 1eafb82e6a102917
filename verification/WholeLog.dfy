/**
  The chain and the projections joined: an origin writes one log, a reader pulls
  it page by page, and every record passes the authority, source, story and vote
  importers on the way in.  What those importers refuse is what the chain layer
  takes as refused, so catching up depends on how the origin came to write its
  log, and on nothing else.
*/
module WholeLog {
  import opened Common
  import opened Chain
  import opened Replica
  import opened Mirror
  import Transaction
  import Authority
  import AuthorityReplay
  import Sources
  import Stories
  import Votes

  /** What a record says to each importer; `Unrelated` and `None` where it says nothing. */
  datatype Reading = Reading(
    authority: Authority.Event, source: Sources.SourceEvent, story: Option<Stories.StoryEvent>, vote: Votes.VoteEvent)

  type Decoder = Record -> Reading

  function AuthorityLog(d: Decoder, es: seq<OriginEvent>): (log: seq<Authority.Event>)
    ensures |log| == |es|
  {
    seq(|es|, i requires 0 <= i < |es| => d(es[i].record).authority)
  }

  function SourceLog(d: Decoder, es: seq<OriginEvent>): (log: seq<Sources.SourceEvent>)
    ensures |log| == |es|
  {
    seq(|es|, i requires 0 <= i < |es| => d(es[i].record).source)
  }

  function VoteLog(d: Decoder, es: seq<OriginEvent>): (log: seq<Votes.VoteEvent>)
    ensures |log| == |es|
  {
    seq(|es|, i requires 0 <= i < |es| => d(es[i].record).vote)
  }

  function StoryLog(d: Decoder, es: seq<OriginEvent>): seq<Stories.StoryEvent>
  {
    if es == [] then []
    else
      var story := d(es[|es| - 1].record).story;
      StoryLog(d, es[..|es| - 1]) + if story.Some? then [story.value] else []
  }

  /** The vote tables of a reader of this one origin. */
  const ORIGIN: Votes.Node := 0

  function Alone(log: seq<Votes.VoteEvent>): Votes.Logs
  {
    map[ORIGIN := log]
  }

  function InOrder(n: nat): (schedule: seq<Votes.Node>)
    ensures |schedule| == n
  {
    seq(n, i => ORIGIN)
  }

  /** What a reader's projections hold of the origin. */
  datatype Tables = Tables(
    authority: Authority.Importer, sources: Sources.Remote, stories: Stories.Tables, votes: Votes.Tables)

  /** The tables after importing these events in order, or `None` if some importer refused one. */
  function TablesOf(d: Decoder, es: seq<OriginEvent>): Option<Tables>
  {
    var authority := Authority.ReplayAll(Authority.EMPTY_IMPORTER, AuthorityLog(d, es));
    var sources := Sources.Project(SourceLog(d, es));
    var stories := Stories.Project(StoryLog(d, es));
    var votes := Votes.Run(Alone(VoteLog(d, es)), InOrder(|es|));
    if authority.Some? && sources.Some? && stories.Some? && votes.Some? then
      Some(Tables(authority.value, sources.value, stories.value, votes.value))
    else None
  }

  /** The sequences at which some importer has refused the log. */
  function Refusals(d: Decoder, log: seq<OriginEvent>): set<int>
  {
    set s | 1 <= s <= |log| && TablesOf(d, log[..s]).None?
  }

  // ------------------------------------------------------------ prefixes import

  lemma {:induction false} SourcesPrefix(log: seq<Sources.SourceEvent>, n: nat)
    requires Sources.Project(log).Some? && n <= |log|
    ensures Sources.Project(log[..n]).Some?
  {
    if n == |log| {
      assert log[..n] == log;
    } else {
      SourcesPrefix(log[..|log| - 1], n);
      assert log[..|log| - 1][..n] == log[..n];
    }
  }

  lemma {:induction false} StoriesPrefix(d: Decoder, es: seq<OriginEvent>, n: nat)
    requires Stories.Project(StoryLog(d, es)).Some? && n <= |es|
    ensures Stories.Project(StoryLog(d, es[..n])).Some?
  {
    if n == |es| {
      assert es[..n] == es;
    } else {
      var log, front := StoryLog(d, es), StoryLog(d, es[..|es| - 1]);
      assert log == front || log[..|log| - 1] == front;
      StoriesPrefix(d, es[..|es| - 1], n);
      assert es[..|es| - 1][..n] == es[..n];
    }
  }

  lemma {:induction false} AuthorityPrefix(log: seq<Authority.Event>, n: nat)
    requires Authority.ReplayAll(Authority.EMPTY_IMPORTER, log).Some? && n <= |log|
    ensures Authority.ReplayAll(Authority.EMPTY_IMPORTER, log[..n]).Some?
  {
    AuthorityReplay.ReplayConcat(Authority.EMPTY_IMPORTER, log[..n], log[n..]);
    assert log[..n] + log[n..] == log;
  }

  lemma {:induction false} CountInOrder(n: nat)
    ensures Votes.Count(InOrder(n), ORIGIN) == n
  {
    if n > 0 {
      CountInOrder(n - 1);
      assert InOrder(n)[..n - 1] == InOrder(n - 1);
    }
  }

  /** A run over the first events does not see the later ones. */
  lemma {:induction false} VotesPrefix(log: seq<Votes.VoteEvent>, n: nat, m: nat)
    requires n <= m <= |log|
    ensures Votes.Run(Alone(log[..m]), InOrder(n)) == Votes.Run(Alone(log), InOrder(n))
  {
    if n > 0 {
      VotesPrefix(log, n - 1, m);
      assert InOrder(n)[..n - 1] == InOrder(n - 1);
      CountInOrder(n - 1);
    }
  }

  lemma {:induction false} VotesSoFar(logs: Votes.Logs, n: nat, m: nat)
    requires n <= m && Votes.Run(logs, InOrder(m)).Some?
    ensures Votes.Run(logs, InOrder(n)).Some?
    decreases m
  {
    if n < m {
      assert InOrder(m)[..m - 1] == InOrder(m - 1);
      VotesSoFar(logs, n, m - 1);
    }
  }

  lemma {:induction false} PrefixImports(d: Decoder, es: seq<OriginEvent>, n: nat)
    requires TablesOf(d, es).Some? && n <= |es|
    ensures TablesOf(d, es[..n]).Some?
  {
    assert AuthorityLog(d, es[..n]) == AuthorityLog(d, es)[..n];
    assert SourceLog(d, es[..n]) == SourceLog(d, es)[..n];
    assert VoteLog(d, es[..n]) == VoteLog(d, es)[..n];
    AuthorityPrefix(AuthorityLog(d, es), n);
    SourcesPrefix(SourceLog(d, es), n);
    StoriesPrefix(d, es, n);
    VotesPrefix(VoteLog(d, es), n, n);
    VotesSoFar(Alone(VoteLog(d, es)), n, |es|);
  }

  /** Nothing is refused exactly if the whole log has tables. */
  lemma {:induction false} NoRefusals(d: Decoder, log: seq<OriginEvent>)
    requires log != []
    ensures |log| !in Refusals(d, log) <==> TablesOf(d, log).Some?
    ensures TablesOf(d, log).Some? ==> Refusals(d, log) == {}
  {
    assert log[..|log|] == log;
    if TablesOf(d, log).Some? {
      forall s | 1 <= s <= |log|
        ensures TablesOf(d, log[..s]).Some?
      {
        PrefixImports(d, log, s);
      }
    }
  }

  // -------------------------------------------------------------- honest origins

  /** How an origin came to write its log. */
  datatype Conduct = Conduct(
    requests: seq<Authority.Request>, sources: seq<Sources.Command>, stories: seq<Stories.Command>)

  /** The log is what an origin with these requests and commands wrote, and its votes passed its own checks. */
  ghost predicate Wrote(d: Decoder, log: seq<OriginEvent>, c: Conduct)
  {
    && AuthorityLog(d, log) == AuthorityReplay.Serve(c.requests).log
    && SourceLog(d, log) == Sources.Serve(c.sources).log
    && StoryLog(d, log) == Stories.Origin(c.stories).1
    && Votes.Honest(VoteLog(d, log))
    && forall k :: 0 <= k < |c.requests| ==> c.requests[k].authorizedAt <= c.requests[k].receivedAt
  }

  /**
    No delegation ran out between two clock readings, no link or assessment
    named a merged story, no text was over-long.
  */
  ghost predicate Importable(c: Conduct)
  {
    AuthorityReplay.NeverStraddles(c.requests) && Stories.AllImportable(c.stories)
  }

  /** The reader's tables are the origin's own. */
  ghost predicate SameTables(c: Conduct, log: seq<Votes.VoteEvent>, t: Tables)
  {
    && AuthorityReplay.Agrees(AuthorityReplay.Serve(c.requests), t.authority)
    && Sources.Agrees(Sources.Serve(c.sources), t.sources)
    && t.stories == Stories.Origin(c.stories).0 && Stories.Forest(t.stories)
    && Votes.VotesAreLast(Alone(log), InOrder(|log|), t.votes.votes)
  }

  lemma {:induction false} HonestVotes(log: seq<Votes.VoteEvent>)
    requires Votes.Honest(log)
    ensures var t := Votes.Run(Alone(log), InOrder(|log|));
      t.Some? && Votes.VotesAreLast(Alone(log), InOrder(|log|), t.value.votes)
  {
    WithinAlone(log, |log|);
    assert Votes.Honest([]);
    Votes.HonestAlwaysImports(Alone(log), InOrder(|log|));
    Votes.TableIsLastVotes(Alone(log), InOrder(|log|));
  }

  lemma {:induction false} WithinAlone(log: seq<Votes.VoteEvent>, n: nat)
    requires n <= |log|
    ensures Votes.WithinLogs(Alone(log), InOrder(n))
  {
    if n > 0 {
      WithinAlone(log, n - 1);
      assert InOrder(n)[..n - 1] == InOrder(n - 1);
      CountInOrder(n - 1);
    }
  }

  /** An honest log imports completely exactly if its origin's conduct was importable, and then rebuilds its tables. */
  lemma {:induction false} HonestTables(d: Decoder, log: seq<OriginEvent>, c: Conduct)
    requires Wrote(d, log, c)
    ensures TablesOf(d, log).Some? <==> Importable(c)
    ensures TablesOf(d, log).Some? ==> SameTables(c, VoteLog(d, log), TablesOf(d, log).value)
  {
    AuthorityReplay.ReplayBisimulates(c.requests);
    Sources.GateAgrees(c.sources);
    Stories.StoriesReplay(c.stories);
    HonestVotes(VoteLog(d, log));
  }

  /**
    End to end.  A reader whose copy is a prefix, imported so far without a
    refusal, pulls an honest origin's log from the origin or from any relay of
    it.  It catches up exactly if the origin's conduct was importable, and then
    retains the same events and holds the same tables.
  */
  method Follow(
    node: Transaction.Node, source: Source, batchSize: nat, statements: nat -> Record, d: Decoder, ghost c: Conduct)
    returns (r: Result<SyncReport, SyncError>)
    requires Inv(node.State()) && Inv(source.db)
    requires Serving(source) && ServedId(source) != NodeIdOf(node.key)
    requires RetainedLog(node.State(), ServedId(source)) <= Served(source)
    requires TablesOf(d, RetainedLog(node.State(), ServedId(source))).Some?
    requires forall k: nat :: |statements(k).canonical| <= MAX_CANONICAL_OBJECT_BYTES
    requires Wrote(d, Served(source), c)
    modifies node
    ensures Inv(node.State())
    ensures r.Ok? && r.value.caughtUp <==> Importable(c)
    ensures Importable(c) ==>
      && RetainedLog(node.State(), ServedId(source)) == Served(source)
      && TablesOf(d, RetainedLog(node.State(), ServedId(source))).Some?
      && SameTables(c, VoteLog(d, Served(source)), TablesOf(d, RetainedLog(node.State(), ServedId(source))).value)
  {
    ghost var log, copy := Served(source), RetainedLog(node.State(), ServedId(source));
    Verdict(d, log, c);
    var refused := Refusals(d, Served(source));
    r := PullAll(node, source, batchSize, refused, statements);
    if r.Ok? && r.value.caughtUp {
      CaughtUpUnrefused(d, ServedKey(source), log, copy);
    }
  }

  /** The pull without a page limit, and what it says about the refusals. */
  method PullAll(node: Transaction.Node, source: Source, batchSize: nat, refused: set<int>, statements: nat -> Record)
    returns (r: Result<SyncReport, SyncError>)
    requires Inv(node.State()) && Inv(source.db)
    requires Serving(source) && ServedId(source) != NodeIdOf(node.key)
    requires RetainedLog(node.State(), ServedId(source)) <= Served(source)
    requires forall k: nat :: |statements(k).canonical| <= MAX_CANONICAL_OBJECT_BYTES
    modifies node
    ensures Inv(node.State()) && IsLog(ServedKey(source), Served(source))
    ensures refused == {} ==> r.Ok? && r.value.caughtUp
    ensures r.Ok? && r.value.caughtUp ==>
      && RetainedLog(node.State(), ServedId(source)) == Served(source)
      && TakesUnrefused(RetainedLog(old(node.State()), ServedId(source)), Served(source), refused)
  {
    SourceServes(source, 0, 0, 1);
    r := Synchronize(node, source, batchSize, None, refused, statements);
  }

  /** Importable conduct means nothing is refused and the tables agree; unimportable conduct means there are none. */
  lemma {:induction false} Verdict(d: Decoder, log: seq<OriginEvent>, c: Conduct)
    requires Wrote(d, log, c)
    ensures TablesOf(d, log).Some? <==> Importable(c)
    ensures Importable(c) ==> Refusals(d, log) == {} && SameTables(c, VoteLog(d, log), TablesOf(d, log).value)
  {
    HonestTables(d, log, c);
    if log != [] {
      NoRefusals(d, log);
    }
  }

  lemma {:induction false} CaughtUpUnrefused(d: Decoder, key: PublicKey, log: seq<OriginEvent>, copy: seq<OriginEvent>)
    requires IsLog(key, log) && TablesOf(d, copy).Some? && TakesUnrefused(copy, log, Refusals(d, log))
    ensures TablesOf(d, log).Some?
  {
    if copy != log {
      assert SealedAt(key, log, |log| - 1);
      NoRefusals(d, log);
    }
  }
}
