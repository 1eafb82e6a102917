/**
  The story tables: observations cluster into stories, story links move
  observations, and a story that a link empties is merged into the link's
  target.  An importer keeps these tables per origin
  (`project_federated_observation` and the story-link arm of
  `apply_federated_contribution` in src/db.rs); the origin keeps its own with a
  weaker check on the link's target.
*/
module Stories {
  import opened Common

  const MAX_TITLE_CHARS := 500
  const MAX_SUMMARY_CHARS := 2000
  const ELLIPSIS: char := '\U{2026}'

  /** What the document hash covers; `rest` stands for the URL, publication time and raw metadata. */
  datatype Document = Document(title: string, summary: string, rest: nat)

  /** The `cwobs_` identifier hashes source, URL and document. */
  datatype ObsId = ObsIdOf(source: nat, url: nat, document: Document)

  /** The `cwstory_` identifier hashes the story's first observation. */
  datatype StoryId = StoryOf(first: ObsId)

  /** `observed` in `created_sequence` order, the observation's story, and each story's `merged_into`. */
  datatype Tables = Tables(observed: seq<ObsId>, placed: map<ObsId, StoryId>, merged: map<StoryId, Option<StoryId>>)

  const EMPTY := Tables([], map[], map[])

  /**
    `genuine` stands for the source-status and document-hash checks; assessments
    and verifications leave the tables alone.
  */
  datatype StoryEvent =
    | Observation(obs: ObsId, story: StoryId, genuine: bool)
    | Link(target: StoryId, moved: seq<ObsId>)
    | Assessment(subject: StoryId)
    | Verification(obs: ObsId)

  /** The importer's limits on an observation's texts. */
  predicate Fits(d: Document)
  {
    |d.title| <= MAX_TITLE_CHARS && |d.summary| <= MAX_SUMMARY_CHARS
  }

  predicate Live(t: Tables, st: StoryId)
  {
    st in t.merged && t.merged[st].None?
  }

  /** The earliest stored observation of a source and URL. */
  function Earliest(observed: seq<ObsId>, obs: ObsId): (r: Option<ObsId>)
    ensures r.Some? ==> r.value in observed
    ensures obs in observed ==> r.Some?
  {
    if observed == [] then None
    else if observed[0].source == obs.source && observed[0].url == obs.url then Some(observed[0])
    else Earliest(observed[1..], obs)
  }

  /** The clustering rule. */
  function ExpectedStory(t: Tables, obs: ObsId): StoryId
  {
    var same := Earliest(t.observed, obs);
    if same.Some? && same.value in t.placed then t.placed[same.value] else StoryOf(obs)
  }

  function Placed(t: Tables, obs: ObsId, st: StoryId): Tables
  {
    Tables(t.observed + [obs], t.placed[obs := st], if st in t.merged then t.merged else t.merged[st := None])
  }

  /** Whether some observation is filed under the story: `COUNT(*) > 0`. */
  predicate Holds(placed: map<ObsId, StoryId>, st: StoryId)
  {
    exists o :: o in placed && placed[o] == st
  }

  /** One iteration of the link loop. */
  function Move(t: Tables, target: StoryId, o: ObsId): Tables
    requires o in t.placed
  {
    var source := t.placed[o];
    if source == target then t
    else
      var placed := t.placed[o := target];
      Tables(t.observed, placed, if Holds(placed, source) then t.merged else t.merged[source := Some(target)])
  }

  predicate Known(t: Tables, os: seq<ObsId>)
  {
    forall i :: 0 <= i < |os| ==> os[i] in t.placed
  }

  function MoveAll(t: Tables, target: StoryId, os: seq<ObsId>): (t': Tables)
    requires Known(t, os)
    ensures t'.placed.Keys == t.placed.Keys && t'.observed == t.observed
  {
    if os == [] then t
    else Move(MoveAll(t, target, os[..|os| - 1]), target, os[|os| - 1])
  }

  lemma {:induction false} MoveAllStep(t: Tables, target: StoryId, os: seq<ObsId>, i: nat)
    requires i < |os| && Known(t, os[..i]) && os[i] in t.placed
    ensures Known(t, os[..i + 1])
    ensures MoveAll(t, target, os[..i + 1]) == Move(MoveAll(t, target, os[..i]), target, os[i])
  {
    assert os[..i + 1][..i] == os[..i];
  }

  // --------------------------------------------------------------- importer

  predicate Imports(t: Tables, e: StoryEvent)
  {
    match e
    case Observation(obs, st, genuine) =>
      genuine && Fits(obs.document) && st == ExpectedStory(t, obs) && obs !in t.placed
    case Link(target, os) => os != [] && Live(t, target) && Known(t, os)
    case Assessment(subject) => Live(t, subject)
    case Verification(obs) => obs in t.placed
  }

  function After(t: Tables, e: StoryEvent): Tables
    requires e.Link? ==> Known(t, e.moved)
  {
    match e
    case Observation(obs, st, _) => Placed(t, obs, st)
    case Link(target, os) => MoveAll(t, target, os)
    case Assessment(_) => t
    case Verification(_) => t
  }

  /** The tables after a whole log, or `None` if some event was refused. */
  function Project(log: seq<StoryEvent>): Option<Tables>
  {
    if log == [] then Some(EMPTY)
    else
      var t := Project(log[..|log| - 1]);
      if t.None? || !Imports(t.value, log[|log| - 1]) then None else Some(After(t.value, log[|log| - 1]))
  }

  // ----------------------------------------------------------------- forest

  /** The story reached by following `merged_into` exactly `n` times. */
  function Steps(merged: map<StoryId, Option<StoryId>>, st: StoryId, n: nat): Option<StoryId>
    decreases n
  {
    if n == 0 then Some(st)
    else if st in merged && merged[st].Some? then Steps(merged, merged[st].value, n - 1)
    else None
  }

  /** Following `merged_into` from `st` ends, at a live story. */
  ghost predicate EndsLive(t: Tables, st: StoryId)
  {
    exists n: nat :: Steps(t.merged, st, n).Some? && Live(t, Steps(t.merged, st, n).value)
  }

  predicate FiledLive(t: Tables)
  {
    forall o :: o in t.placed ==> Live(t, t.placed[o])
  }

  ghost predicate MergedIffEmpty(t: Tables)
  {
    forall st :: st in t.merged ==> (Live(t, st) <==> Holds(t.placed, st))
  }

  ghost predicate AllEndLive(t: Tables)
  {
    forall st {:trigger EndsLive(t, st)} :: st in t.merged ==> EndsLive(t, st)
  }

  /** A fresh observation's own story does not exist yet, because stories are named by stored observations. */
  ghost predicate NamedByObserved(t: Tables)
  {
    && (forall o :: o in t.placed <==> o in t.observed)
    && (forall st {:trigger NamedWell(t, st)} :: st in t.merged ==> NamedWell(t, st))
  }

  predicate NamedWell(t: Tables, st: StoryId)
  {
    st.first in t.placed
  }

  /**
    Every observation in exactly one live story, empty stories merged, and every
    merge chain ending at a live story.
  */
  ghost predicate Forest(t: Tables)
  {
    FiledLive(t) && MergedIffEmpty(t) && AllEndLive(t) && NamedByObserved(t)
  }

  lemma {:induction false} StepsCompose(merged: map<StoryId, Option<StoryId>>, st: StoryId, m: nat, n: nat)
    requires Steps(merged, st, m).Some?
    ensures Steps(merged, st, m + n) == Steps(merged, Steps(merged, st, m).value, n)
    decreases m
  {
    if m != 0 {
      StepsCompose(merged, merged[st].value, m - 1, n);
    }
  }

  lemma {:induction false} LoopNeverEnds(merged: map<StoryId, Option<StoryId>>, st: StoryId, c: nat, n: nat)
    requires c > 0 && Steps(merged, st, c) == Some(st)
    ensures Steps(merged, st, n).Some?
    decreases n
  {
    if n <= c {
      if Steps(merged, st, n).None? {
        StepsStop(merged, st, n, c);
      }
    } else {
      LoopNeverEnds(merged, st, c, n - c);
      StepsCompose(merged, st, c, n - c);
    }
  }

  lemma {:induction false} StepsStop(merged: map<StoryId, Option<StoryId>>, st: StoryId, m: nat, n: nat)
    requires m <= n && Steps(merged, st, m).None?
    ensures Steps(merged, st, n).None?
    decreases m
  {
    if st in merged && merged[st].Some? {
      StepsStop(merged, merged[st].value, m - 1, n - 1);
    }
  }

  /** A chain that ends cannot come back to where it started. */
  lemma {:induction false} NoMergeCycle(t: Tables, st: StoryId, c: nat)
    requires Forest(t) && st in t.merged && c > 0
    ensures Steps(t.merged, st, c) != Some(st)
  {
    assert EndsLive(t, st);
    var n: nat :| Steps(t.merged, st, n).Some? && Live(t, Steps(t.merged, st, n).value);
    StepsCompose(t.merged, st, n, 1);
    assert Steps(t.merged, Steps(t.merged, st, n).value, 1).None?;
    if Steps(t.merged, st, c) == Some(st) {
      LoopNeverEnds(t.merged, st, c, n + 1);
    }
  }

  // ------------------------------------------------------- one moved observation

  /** Chains survive merging a live story: those that ended there are one longer. */
  lemma {:induction false} ChainAfterMerge(t: Tables, source: StoryId, target: StoryId, st: StoryId, n: nat)
    requires Live(t, source) && Live(t, target) && source != target
    requires Steps(t.merged, st, n).Some? && Live(t, Steps(t.merged, st, n).value)
    ensures EndsLive(t.(merged := t.merged[source := Some(target)]), st)
    decreases n
  {
    var t' := t.(merged := t.merged[source := Some(target)]);
    if n == 0 {
      if st == source {
        assert Steps(t'.merged, target, 0) == Some(target);
        assert Steps(t'.merged, st, 1) == Some(target);
      } else {
        assert Steps(t'.merged, st, 0) == Some(st);
      }
    } else {
      var next := t.merged[st].value;
      ChainAfterMerge(t, source, target, next, n - 1);
      var k: nat :| Steps(t'.merged, next, k).Some? && Live(t', Steps(t'.merged, next, k).value);
      assert Steps(t'.merged, st, k + 1) == Steps(t'.merged, next, k);
    }
  }

  lemma {:induction false} MergeKeepsChains(t: Tables, source: StoryId, target: StoryId)
    requires AllEndLive(t) && Live(t, source) && Live(t, target) && source != target
    ensures AllEndLive(t.(merged := t.merged[source := Some(target)]))
  {
    forall st | st in t.merged
      ensures EndsLive(t.(merged := t.merged[source := Some(target)]), st)
    {
      assert EndsLive(t, st);
      var n: nat :| Steps(t.merged, st, n).Some? && Live(t, Steps(t.merged, st, n).value);
      ChainAfterMerge(t, source, target, st, n);
    }
  }

  /** Chains do not look at where observations are filed. */
  lemma {:induction false} ChainsIgnorePlacement(t: Tables, t': Tables)
    requires t.merged == t'.merged && AllEndLive(t)
    ensures AllEndLive(t')
  {
    forall st | st in t'.merged
      ensures EndsLive(t', st)
    {
      assert EndsLive(t, st);
      var n: nat :| Steps(t.merged, st, n).Some? && Live(t, Steps(t.merged, st, n).value);
      assert Steps(t'.merged, st, n).Some? && Live(t', Steps(t'.merged, st, n).value);
    }
  }

  lemma {:induction false} MoveKeepsPlacement(t: Tables, target: StoryId, o: ObsId)
    requires FiledLive(t) && MergedIffEmpty(t) && Live(t, target) && o in t.placed
    ensures var t' := Move(t, target, o); FiledLive(t') && MergedIffEmpty(t') && Live(t', target)
  {
    var t' := Move(t, target, o);
    var source := t.placed[o];
    if source != target {
      assert t'.placed[o] == target;
      forall st | st in t'.merged
        ensures Live(t', st) <==> Holds(t'.placed, st)
      {
        if st != source && st != target && Holds(t.placed, st) {
          var p :| p in t.placed && t.placed[p] == st;
          assert t'.placed[p] == st;
        }
      }
    }
  }

  lemma {:induction false} MoveKeepsChains(t: Tables, target: StoryId, o: ObsId)
    requires AllEndLive(t) && Live(t, target) && o in t.placed && Live(t, t.placed[o])
    ensures AllEndLive(Move(t, target, o))
  {
    var t' := Move(t, target, o);
    var source := t.placed[o];
    if t'.merged == t.merged {
      ChainsIgnorePlacement(t, t');
    } else {
      MergeKeepsChains(t, source, target);
      ChainsIgnorePlacement(t.(merged := t.merged[source := Some(target)]), t');
    }
  }

  lemma {:induction false} MoveKeepsNames(t: Tables, target: StoryId, o: ObsId)
    requires NamedByObserved(t) && o in t.placed && t.placed[o] in t.merged
    ensures NamedByObserved(Move(t, target, o))
  {
    forall st | st in Move(t, target, o).merged
      ensures NamedWell(Move(t, target, o), st)
    {
      assert NamedWell(t, st);
    }
  }

  lemma {:induction false} MoveKeepsForest(t: Tables, target: StoryId, o: ObsId)
    requires Forest(t) && Live(t, target) && o in t.placed
    ensures Forest(Move(t, target, o)) && Live(Move(t, target, o), target)
  {
    MoveKeepsPlacement(t, target, o);
    MoveKeepsChains(t, target, o);
    MoveKeepsNames(t, target, o);
  }

  lemma {:induction false} LinkKeepsForest(t: Tables, target: StoryId, os: seq<ObsId>)
    requires Forest(t) && Live(t, target) && Known(t, os)
    ensures Forest(MoveAll(t, target, os)) && Live(MoveAll(t, target, os), target)
  {
    if os != [] {
      LinkKeepsForest(t, target, os[..|os| - 1]);
      MoveKeepsForest(MoveAll(t, target, os[..|os| - 1]), target, os[|os| - 1]);
    }
  }

  /** A link files exactly the observations it names under its target. */
  lemma {:induction false} LinkFiles(t: Tables, target: StoryId, os: seq<ObsId>, o: ObsId)
    requires Known(t, os) && o in t.placed
    ensures MoveAll(t, target, os).placed[o] == if o in os then target else t.placed[o]
  {
    if os != [] {
      LinkFiles(t, target, os[..|os| - 1], o);
      assert os == os[..|os| - 1] + [os[|os| - 1]];
    }
  }

  // ------------------------------------------------------------ observations

  lemma {:induction false} NewStoryChains(t: Tables, st: StoryId)
    requires AllEndLive(t) && st !in t.merged
    requires forall x :: x in t.merged && t.merged[x].Some? ==> t.merged[x].value != st
    ensures AllEndLive(t.(merged := t.merged[st := None]))
  {
    var t' := t.(merged := t.merged[st := None]);
    forall x | x in t'.merged
      ensures EndsLive(t', x)
    {
      if x == st {
        assert Steps(t'.merged, x, 0) == Some(st);
      } else {
        assert EndsLive(t, x);
        var n: nat :| Steps(t.merged, x, n).Some? && Live(t, Steps(t.merged, x, n).value);
        SameSteps(t.merged, st, x, n);
      }
    }
  }

  lemma {:induction false} SameSteps(merged: map<StoryId, Option<StoryId>>, st: StoryId, x: StoryId, n: nat)
    requires st !in merged && x != st
    requires forall y :: y in merged && merged[y].Some? ==> merged[y].value != st
    ensures Steps(merged[st := None], x, n) == Steps(merged, x, n)
    decreases n
  {
    if n != 0 && x in merged && merged[x].Some? {
      SameSteps(merged, st, merged[x].value, n - 1);
    }
  }

  /** A chain that ends live starts at a stored story and its first hop is one. */
  lemma {:induction false} HopsAreStories(t: Tables, x: StoryId)
    requires AllEndLive(t) && x in t.merged && t.merged[x].Some?
    ensures t.merged[x].value in t.merged
  {
    assert EndsLive(t, x);
    var n: nat :| Steps(t.merged, x, n).Some? && Live(t, Steps(t.merged, x, n).value);
    assert n > 0;
    assert Steps(t.merged, t.merged[x].value, n - 1).Some?;
    if n > 1 {
      assert t.merged[x].value in t.merged;
    }
  }

  /** The story an observation joins is live, or is new and named by the observation. */
  lemma {:induction false} ExpectedIsLiveOrNew(t: Tables, obs: ObsId)
    requires FiledLive(t) && NamedByObserved(t) && obs !in t.placed
    ensures var st := ExpectedStory(t, obs); Live(t, st) || (st == StoryOf(obs) && st !in t.merged)
  {
    assert StoryOf(obs) in t.merged ==> NamedWell(t, StoryOf(obs));
  }

  lemma {:induction false} PlacedKeepsPlacement(t: Tables, obs: ObsId, st: StoryId)
    requires FiledLive(t) && MergedIffEmpty(t) && obs !in t.placed && (Live(t, st) || st !in t.merged)
    ensures FiledLive(Placed(t, obs, st)) && MergedIffEmpty(Placed(t, obs, st))
  {
    var t' := Placed(t, obs, st);
    assert t'.placed[obs] == st;
    forall x | x in t'.merged
      ensures Live(t', x) <==> Holds(t'.placed, x)
    {
      if x != st && Holds(t.placed, x) {
        var p :| p in t.placed && t.placed[p] == x;
        assert t'.placed[p] == x;
      }
    }
  }

  lemma {:induction false} PlacedKeepsChains(t: Tables, obs: ObsId, st: StoryId)
    requires AllEndLive(t)
    ensures AllEndLive(Placed(t, obs, st))
  {
    var t' := Placed(t, obs, st);
    if st in t.merged {
      ChainsIgnorePlacement(t, t');
    } else {
      forall x | x in t.merged && t.merged[x].Some?
        ensures t.merged[x].value != st
      {
        HopsAreStories(t, x);
      }
      NewStoryChains(t, st);
      ChainsIgnorePlacement(t.(merged := t.merged[st := None]), t');
    }
  }

  lemma {:induction false} PlacedKeepsNames(t: Tables, obs: ObsId, st: StoryId)
    requires NamedByObserved(t) && (st in t.merged || st == StoryOf(obs))
    ensures NamedByObserved(Placed(t, obs, st))
  {
    forall x | x in Placed(t, obs, st).merged
      ensures NamedWell(Placed(t, obs, st), x)
    {
      assert x in t.merged ==> NamedWell(t, x);
    }
  }

  lemma {:induction false} PlacedKeepsForest(t: Tables, obs: ObsId)
    requires Forest(t) && obs !in t.placed
    ensures Forest(Placed(t, obs, ExpectedStory(t, obs)))
  {
    var st := ExpectedStory(t, obs);
    ExpectedIsLiveOrNew(t, obs);
    PlacedKeepsPlacement(t, obs, st);
    PlacedKeepsChains(t, obs, st);
    PlacedKeepsNames(t, obs, st);
  }

  /** After every accepted run of observations and links the projection is a forest without merge cycles. */
  lemma {:induction false} ProjectionIsForest(log: seq<StoryEvent>)
    requires Project(log).Some?
    ensures Forest(Project(log).value)
    ensures forall st, c: nat :: st in Project(log).value.merged && c > 0 ==>
      Steps(Project(log).value.merged, st, c) != Some(st)
  {
    if log != [] {
      ProjectionIsForest(log[..|log| - 1]);
      var t := Project(log[..|log| - 1]).value;
      match log[|log| - 1]
      case Observation(obs, _, _) => PlacedKeepsForest(t, obs);
      case Link(target, os) => LinkKeepsForest(t, target, os);
      case Assessment(_) =>
      case Verification(_) =>
    }
    forall st, c: nat | st in Project(log).value.merged && c > 0
      ensures Steps(Project(log).value.merged, st, c) != Some(st)
    {
      NoMergeCycle(Project(log).value, st, c);
    }
  }

  // -------------------------------------------------------------- clustering

  /** Two observations of one article: one feed's item at one address. */
  predicate SameArticle(a: ObsId, b: ObsId)
  {
    a.source == b.source && a.url == b.url
  }

  /** `observed[i]` is the first stored observation of the article. */
  ghost predicate FirstOf(observed: seq<ObsId>, i: int, obs: ObsId)
  {
    0 <= i < |observed| && SameArticle(observed[i], obs) && forall j :: 0 <= j < i ==> !SameArticle(observed[j], obs)
  }

  lemma {:induction false} EarliestIsFirst(observed: seq<ObsId>, i: int, obs: ObsId)
    requires FirstOf(observed, i, obs)
    ensures Earliest(observed, obs) == Some(observed[i])
  {
    if i != 0 {
      assert !SameArticle(observed[0], obs);
      assert FirstOf(observed[1..], i - 1, obs);
      EarliestIsFirst(observed[1..], i - 1, obs);
    }
  }

  lemma {:induction false} EarliestOfNone(observed: seq<ObsId>, obs: ObsId)
    requires forall i :: 0 <= i < |observed| ==> !SameArticle(observed[i], obs)
    ensures Earliest(observed, obs).None?
  {
    if observed != [] {
      assert !SameArticle(observed[0], obs);
      EarliestOfNone(observed[1..], obs);
    }
  }

  lemma {:induction false} FirstExists(observed: seq<ObsId>, obs: ObsId, k: int) returns (i: int)
    requires 0 <= k < |observed| && SameArticle(observed[k], obs)
    ensures FirstOf(observed, i, obs) && i <= k
  {
    if j :| 0 <= j < k && SameArticle(observed[j], obs) {
      i := FirstExists(observed, obs, j);
    } else {
      i := k;
    }
  }

  /**
    The clustering rule by position: an article never observed before opens the
    story named by this observation; another joins the story that the earliest
    observation of the article is filed under now.
  */
  lemma {:induction false} ClusteringRule(t: Tables, obs: ObsId)
    requires NamedByObserved(t)
    ensures (forall i :: 0 <= i < |t.observed| ==> !SameArticle(t.observed[i], obs)) ==>
      ExpectedStory(t, obs) == StoryOf(obs)
    ensures forall i :: FirstOf(t.observed, i, obs) ==>
      t.observed[i] in t.placed && ExpectedStory(t, obs) == t.placed[t.observed[i]]
    ensures (exists i :: FirstOf(t.observed, i, obs)) <==>
      exists k :: 0 <= k < |t.observed| && SameArticle(t.observed[k], obs)
  {
    forall i | FirstOf(t.observed, i, obs)
      ensures t.observed[i] in t.placed && ExpectedStory(t, obs) == t.placed[t.observed[i]]
    {
      EarliestIsFirst(t.observed, i, obs);
      assert t.observed[i] in t.observed;
    }
    if k :| 0 <= k < |t.observed| && SameArticle(t.observed[k], obs) {
      var i := FirstExists(t.observed, obs, k);
    } else {
      EarliestOfNone(t.observed, obs);
    }
  }

  ghost predicate ClusteredBy(t: Tables, a: ObsId, b: ObsId)
  {
    a in t.placed && b in t.placed ==> (t.placed[a] == t.placed[b] <==> SameArticle(a, b))
  }

  ghost predicate Clustered(t: Tables)
  {
    forall a, b :: ClusteredBy(t, a, b)
  }

  /** A new observation shares its story with exactly the stored observations of its article. */
  lemma {:induction false} JoinsItsArticle(t: Tables, obs: ObsId, b: ObsId)
    requires Clustered(t) && FiledLive(t) && NamedByObserved(t) && obs !in t.placed && b in t.placed
    ensures ExpectedStory(t, obs) == t.placed[b] <==> SameArticle(obs, b)
  {
    ClusteringRule(t, obs);
    if k :| 0 <= k < |t.observed| && SameArticle(t.observed[k], obs) {
      var i := FirstExists(t.observed, obs, k);
      assert ClusteredBy(t, t.observed[i], b);
    } else {
      assert Live(t, t.placed[b]) && NamedWell(t, t.placed[b]);
      assert b in t.observed;
    }
  }

  lemma {:induction false} PlacedKeepsClusters(t: Tables, obs: ObsId)
    requires Clustered(t) && FiledLive(t) && NamedByObserved(t) && obs !in t.placed
    ensures Clustered(Placed(t, obs, ExpectedStory(t, obs)))
  {
    var t' := Placed(t, obs, ExpectedStory(t, obs));
    forall a, b
      ensures ClusteredBy(t', a, b)
    {
      assert ClusteredBy(t, a, b);
      if a == obs && b in t.placed {
        JoinsItsArticle(t, obs, b);
      } else if b == obs && a in t.placed {
        JoinsItsArticle(t, obs, a);
      }
    }
  }

  /** Until a link regroups them, two observations share a story exactly if they are of one article. */
  lemma {:induction false} StoriesAreArticles(log: seq<StoryEvent>, a: ObsId, b: ObsId)
    requires Project(log).Some? && forall i :: 0 <= i < |log| ==> !log[i].Link?
    requires a in Project(log).value.placed && b in Project(log).value.placed
    ensures Project(log).value.placed[a] == Project(log).value.placed[b] <==> a.source == b.source && a.url == b.url
  {
    UnlinkedIsClustered(log);
    assert ClusteredBy(Project(log).value, a, b);
  }

  lemma {:induction false} UnlinkedIsClustered(log: seq<StoryEvent>)
    requires Project(log).Some? && forall i :: 0 <= i < |log| ==> !log[i].Link?
    ensures Clustered(Project(log).value)
  {
    if log != [] {
      var front := log[..|log| - 1];
      UnlinkedIsClustered(front);
      ProjectionIsForest(front);
      var e := log[|log| - 1];
      if e.Observation? {
        PlacedKeepsClusters(Project(front).value, e.obs);
      }
    }
  }

  /**
    A link merges into its target exactly the live stories it empties, and
    leaves every other story's `merged_into` alone.
  */
  lemma {:induction false} LinkMerges(t: Tables, target: StoryId, os: seq<ObsId>, st: StoryId)
    requires Forest(t) && Live(t, target) && Known(t, os) && st in t.merged
    ensures var t' := MoveAll(t, target, os);
      && t'.merged.Keys == t.merged.Keys
      && t'.merged[st] == if Holds(t.placed, st) && !Holds(t'.placed, st) then Some(target) else t.merged[st]
  {
    MergedOnlyIntoTarget(t, target, os, st);
    var t' := MoveAll(t, target, os);
    assert MergedIffEmpty(t') by { LinkKeepsForest(t, target, os); }
  }

  lemma {:induction false} MoveMerges(u: Tables, target: StoryId, o: ObsId, st: StoryId)
    requires o in u.placed && Live(u, u.placed[o]) && st in u.merged
    ensures var u' := Move(u, target, o);
      && u'.merged.Keys == u.merged.Keys
      && (u'.merged[st] == u.merged[st] || (Live(u, st) && u'.merged[st] == Some(target)))
  {
  }

  lemma {:induction false} MergedOnlyIntoTarget(t: Tables, target: StoryId, os: seq<ObsId>, st: StoryId)
    requires Forest(t) && Live(t, target) && Known(t, os) && st in t.merged
    ensures var t' := MoveAll(t, target, os);
      && t'.merged.Keys == t.merged.Keys
      && (t'.merged[st] == t.merged[st] || (Live(t, st) && t'.merged[st] == Some(target)))
  {
    if os != [] {
      var front, o := os[..|os| - 1], os[|os| - 1];
      MergedOnlyIntoTarget(t, target, front, st);
      var u := MoveAll(t, target, front);
      assert FiledLive(u) by { LinkKeepsForest(t, target, front); }
      MoveMerges(u, target, o, st);
    }
  }

  // ------------------------------------------------- importable, from the log

  predicate Observes(e: StoryEvent, o: ObsId)
  {
    e.Observation? && e.obs == o
  }

  predicate ObservedIn(log: seq<StoryEvent>, o: ObsId)
  {
    exists i :: 0 <= i < |log| && Observes(log[i], o)
  }

  lemma {:induction false} PlacedIffObserved(log: seq<StoryEvent>, o: ObsId)
    requires Project(log).Some?
    ensures o in Project(log).value.placed <==> ObservedIn(log, o)
  {
    if log != [] {
      var front, e := log[..|log| - 1], log[|log| - 1];
      PlacedIffObserved(front, o);
      assert ObservedIn(log, o) <==> ObservedIn(front, o) || Observes(e, o) by {
        assert log[|front|] == e && forall i :: 0 <= i < |front| ==> log[i] == front[i];
      }
    }
  }

  /**
    What may come next: a genuine, short, new observation under the story of its
    article's first one, or its own; a link of observations, some at least, all
    made before, to a story that holds one; an assessment of such a story; a
    verification of an observation made before.
  */
  ghost predicate Lawful(log: seq<StoryEvent>, t: Tables, e: StoryEvent)
  {
    match e
    case Observation(obs, st, genuine) =>
      && genuine && |obs.document.title| <= 500 && |obs.document.summary| <= 2000 && !ObservedIn(log, obs)
      && (forall i :: FirstOf(t.observed, i, obs) ==> t.observed[i] in t.placed && t.placed[t.observed[i]] == st)
      && ((forall i :: 0 <= i < |t.observed| ==> !SameArticle(t.observed[i], obs)) ==> st == StoryOf(obs))
    case Link(target, os) =>
      Holds(t.placed, target) && |os| > 0 && forall i :: 0 <= i < |os| ==> ObservedIn(log, os[i])
    case Assessment(subject) => Holds(t.placed, subject)
    case Verification(obs) => ObservedIn(log, obs)
  }

  lemma {:induction false} LiveIffHolding(t: Tables, st: StoryId)
    requires FiledLive(t) && MergedIffEmpty(t)
    ensures Live(t, st) <==> Holds(t.placed, st)
  {
  }

  /** An importer takes the next event exactly if it is lawful after the log so far. */
  lemma {:induction false} ImportsByLog(log: seq<StoryEvent>, e: StoryEvent)
    requires Project(log).Some?
    ensures Project(log + [e]).Some? <==> Lawful(log, Project(log).value, e)
  {
    var t := Project(log).value;
    assert (log + [e])[..|log|] == log;
    ProjectionIsForest(log);
    match e
    case Observation(obs, _, _) =>
      PlacedIffObserved(log, obs);
      ClusteringRule(t, obs);
    case Link(target, os) =>
      LiveIffHolding(t, target);
      forall i | 0 <= i < |os| {
        PlacedIffObserved(log, os[i]);
      }
    case Assessment(subject) => LiveIffHolding(t, subject);
    case Verification(obs) => PlacedIffObserved(log, obs);
  }

  // ------------------------------------------------------- the origin's own tables

  /** The collector's `truncate`: the cut text gets an ellipsis on top of the maximum. */
  function Truncate(text: string, maximum: nat): (r: string)
    ensures |text| <= maximum ==> r == text
    ensures |text| > maximum ==> |r| == maximum + 1 && text[..maximum] < r && r[maximum] == ELLIPSIS
  {
    if |text| > maximum then text[..maximum] + [ELLIPSIS] else text
  }

  /** The observation the collector makes of a feed item. */
  function Collected(source: nat, url: nat, item: Document): ObsId
  {
    var title, summary := Truncate(item.title, MAX_TITLE_CHARS), Truncate(item.summary, MAX_SUMMARY_CHARS);
    ObsIdOf(source, url, Document(title, summary, item.rest))
  }

  /** What the origin is asked to do; it computes the identifier and story of an observation itself. */
  datatype Command =
    | Observe(source: nat, url: nat, item: Document)
    | LinkStories(target: StoryId, moved: seq<ObsId>)
    | Assess(subject: StoryId)
    | Verify(obs: ObsId)

  /** The origin only asks that the story of a link or an assessment exists. */
  predicate Accepts(t: Tables, c: Command)
  {
    match c
    case Observe(source, url, item) => Collected(source, url, item) !in t.placed
    case LinkStories(target, os) => os != [] && target in t.merged && Known(t, os)
    case Assess(subject) => subject in t.merged
    case Verify(obs) => obs in t.placed
  }

  function EventOf(t: Tables, c: Command): StoryEvent
  {
    match c
    case Observe(source, url, item) =>
      var obs := Collected(source, url, item);
      Observation(obs, ExpectedStory(t, obs), true)
    case LinkStories(target, os) => Link(target, os)
    case Assess(subject) => Assessment(subject)
    case Verify(obs) => Verification(obs)
  }

  /**
    The origin's tables and log after a run of commands; a refused command, or a
    repeated observation, changes neither.
  */
  function Origin(cs: seq<Command>): (Tables, seq<StoryEvent>)
  {
    if cs == [] then (EMPTY, [])
    else
      var (t, log) := Origin(cs[..|cs| - 1]);
      var c := cs[|cs| - 1];
      if Accepts(t, c) then (After(t, EventOf(t, c)), log + [EventOf(t, c)]) else (t, log)
  }

  /**
    What an importer asks beyond the origin's own checks: a live story, and
    texts the collector did not have to cut.
  */
  predicate Importable(t: Tables, c: Command)
  {
    match c
    case Observe(_, _, item) => Fits(item)
    case LinkStories(target, _) => Live(t, target)
    case Assess(subject) => Live(t, subject)
    case Verify(_) => true
  }

  /** Every accepted command was importable at that moment. */
  predicate AllImportable(cs: seq<Command>)
  {
    cs != [] ==>
      && AllImportable(cs[..|cs| - 1])
      && var t := Origin(cs[..|cs| - 1]).0;
      && (Accepts(t, cs[|cs| - 1]) ==> Importable(t, cs[|cs| - 1]))
  }

  /** On what the origin accepts, the importer's verdict is `Importable`. */
  lemma {:induction false} ImportsIff(t: Tables, c: Command)
    requires Accepts(t, c)
    ensures Imports(t, EventOf(t, c)) <==> Importable(t, c)
  {
  }

  /**
    The story records of the origin's log import, and the importer rebuilds the
    origin's own story tables, exactly if every accepted link and assessment
    named a live story and no accepted feed item had a text over its limit.
  */
  lemma {:induction false} StoriesReplay(cs: seq<Command>)
    ensures var (t, log) := Origin(cs);
      && (Project(log).Some? <==> AllImportable(cs))
      && (Project(log).Some? ==> Project(log).value == t && Forest(t))
  {
    var (t', log') := Origin(cs);
    if cs != [] {
      var front, c := cs[..|cs| - 1], cs[|cs| - 1];
      StoriesReplay(front);
      var (t, log) := Origin(front);
      if Accepts(t, c) {
        assert log'[..|log'| - 1] == log;
        ImportsIff(t, c);
      }
    }
    if Project(log').Some? {
      ProjectionIsForest(log');
    }
  }

  /** A first feed item imports exactly if its title and summary are within 500 and 2000 characters. */
  lemma {:induction false} LongItemBlocks(source: nat, url: nat, item: Document)
    ensures var (t, log) := Origin([Observe(source, url, item)]);
      |log| == 1 && (Project(log).Some? <==> |item.title| <= 500 && |item.summary| <= 2000)
  {
    var cs := [Observe(source, url, item)];
    assert cs[..0] == [];
    assert Accepts(EMPTY, cs[0]) && (AllImportable(cs) <==> Fits(item));
    StoriesReplay(cs);
  }

  /** From a forest, a link the origin accepts leaves a forest exactly if it names a live story. */
  lemma {:induction false} LinkBreaksForestIff(t: Tables, target: StoryId, os: seq<ObsId>)
    requires Forest(t) && Accepts(t, LinkStories(target, os))
    ensures Forest(MoveAll(t, target, os)) <==> Live(t, target)
  {
    if Live(t, target) {
      LinkKeepsForest(t, target, os);
    } else {
      StaysMerged(t, target, os);
      var o := os[|os| - 1];
      assert MoveAll(t, target, os).placed[o] == target;
    }
  }

  lemma {:induction false} StaysMerged(t: Tables, target: StoryId, os: seq<ObsId>)
    requires Known(t, os) && !Live(t, target)
    ensures !Live(MoveAll(t, target, os), target)
  {
    if os != [] {
      StaysMerged(t, target, os[..|os| - 1]);
    }
  }

  /** Two items of different sources, observed, and the second's story linked into the first's. */
  function Merging(a: Command, b: Command): seq<Command>
    requires a.Observe? && b.Observe?
  {
    [a, b, LinkStories(StoryOf(ObsOf(a)), [ObsOf(b)])]
  }

  function ObsOf(c: Command): ObsId
    requires c.Observe?
  {
    Collected(c.source, c.url, c.item)
  }

  /** Linking back to a merged story leaves the origin with two stories merged into each other. */
  lemma {:induction false} OriginCanCycle(a: Command, b: Command)
    requires a.Observe? && b.Observe? && a.source != b.source
    ensures var sa, sb := StoryOf(ObsOf(a)), StoryOf(ObsOf(b));
      var cs := Merging(a, b) + [LinkStories(sb, [ObsOf(a), ObsOf(b)])];
      && Origin(cs).0.merged == map[sa := Some(sb), sb := Some(sa)]
      && Project(Origin(cs).1).None?
  {
    var c := LinkStories(StoryOf(ObsOf(b)), [ObsOf(a), ObsOf(b)]);
    MergingMerges(a, b);
    OneMore(Merging(a, b), c);
    LinkBack(ObsOf(a), ObsOf(b));
    StoriesReplay(Merging(a, b) + [c]);
  }

  lemma {:induction false} LinkBack(a: ObsId, b: ObsId)
    requires a != b
    ensures var t := MergedTwo(a, b); var sa, sb := StoryOf(a), StoryOf(b);
      && Accepts(t, LinkStories(sb, [a, b])) && !Importable(t, LinkStories(sb, [a, b]))
      && MoveAll(t, sb, [a, b]).merged == map[sa := Some(sb), sb := Some(sa)]
  {
    MoveBack(MergedTwo(a, b), a, b);
  }

  /** Assessing a merged story is accepted at the origin and makes its log unimportable. */
  lemma {:induction false} MergedAssessmentBlocks(a: Command, b: Command)
    requires a.Observe? && b.Observe? && a.source != b.source
    ensures var cs := Merging(a, b) + [Assess(StoryOf(ObsOf(b)))];
      |Origin(cs).1| == |Origin(Merging(a, b)).1| + 1 && Project(Origin(cs).1).None?
  {
    MergingMerges(a, b);
    OneMore(Merging(a, b), Assess(StoryOf(ObsOf(b))));
    StoriesReplay(Merging(a, b) + [Assess(StoryOf(ObsOf(b)))]);
  }

  lemma {:induction false} OneMore(cs: seq<Command>, c: Command)
    requires Accepts(Origin(cs).0, c)
    ensures var (t, log) := Origin(cs); Origin(cs + [c]) == (After(t, EventOf(t, c)), log + [EventOf(t, c)])
    ensures AllImportable(cs + [c]) <==> AllImportable(cs) && Importable(Origin(cs).0, c)
  {
    assert (cs + [c])[..|cs|] == cs;
  }

  /** Two observed stories, the second merged into the first. */
  function MergedTwo(a: ObsId, b: ObsId): Tables
  {
    Tables([a, b], map[a := StoryOf(a), b := StoryOf(a)], map[StoryOf(a) := None, StoryOf(b) := Some(StoryOf(a))])
  }

  lemma {:induction false} MergingMerges(a: Command, b: Command)
    requires a.Observe? && b.Observe? && a.source != b.source
    ensures Origin(Merging(a, b)).0 == MergedTwo(ObsOf(a), ObsOf(b))
  {
    var oa, ob := ObsOf(a), ObsOf(b);
    var sa, sb := StoryOf(oa), StoryOf(ob);
    assert [] + [a] == [a] && [a] + [b] == [a, b];
    OneMore([], a);
    assert Origin([a]).0 == Tables([oa], map[oa := sa], map[sa := None]);
    OneMore([a], b);
    var t := Tables([oa, ob], map[oa := sa, ob := sb], map[sa := None, sb := None]);
    assert Origin([a, b]).0 == t;
    var link := LinkStories(sa, [ob]);
    assert [a, b] + [link] == Merging(a, b);
    OneMore([a, b], link);
    assert [ob][..0] == [];
    assert MoveAll(t, sa, [ob]) == Move(t, sa, ob);
  }

  lemma {:induction false} MoveBack(t: Tables, a: ObsId, b: ObsId)
    requires a != b && t.placed == map[a := StoryOf(a), b := StoryOf(a)]
    ensures MoveAll(t, StoryOf(b), [a, b]).merged == t.merged[StoryOf(a) := Some(StoryOf(b))]
  {
    var sa, sb := StoryOf(a), StoryOf(b);
    assert [a, b][..1] == [a] && [a][..0] == [];
    var t4 := Tables(t.observed, map[a := sb, b := sa], t.merged);
    assert Holds(t4.placed, sa) by { assert t4.placed[b] == sa; }
    assert t.placed[a := sb] == t4.placed;
    assert MoveAll(t, sb, [a]) == t4;
    assert MoveAll(t, sb, [a, b]) == Move(t4, sb, b);
  }

  // ------------------------------------------------------------- the tables

  /** One origin's federated story tables, updated in place. */
  class StoryTables {
    var observed: seq<ObsId>
    var placed: map<ObsId, StoryId>
    var merged: map<StoryId, Option<StoryId>>

    ghost function State(): Tables
      reads this
    {
      Tables(observed, placed, merged)
    }

    constructor ()
      ensures State() == EMPTY && Forest(State())
    {
      observed, placed, merged := [], map[], map[];
    }

    /** `project_federated_observation`. */
    method ProjectObservation(obs: ObsId, story: StoryId, genuine: bool) returns (r: Result<(), Error>)
      requires Forest(State())
      modifies this
      ensures Forest(State())
      ensures r.Ok? <==> Imports(old(State()), Observation(obs, story, genuine))
      ensures State() == if r.Ok? then Placed(old(State()), obs, story) else old(State())
    {
      if !genuine {
        return Err(Unauthorized);
      }
      if |obs.document.title| > MAX_TITLE_CHARS || |obs.document.summary| > MAX_SUMMARY_CHARS {
        return Err(Validation);
      }
      var same := Earliest(observed, obs);
      var expected := if same.Some? then placed[same.value] else StoryOf(obs);
      if story != expected {
        return Err(Unauthorized);
      }
      if obs in placed {
        return Err(Conflict);
      }
      PlacedKeepsForest(State(), obs);
      if story !in merged {
        merged := merged[story := None];
      }
      observed := observed + [obs];
      placed := placed[obs := story];
      return Ok(());
    }

    method MoveObservation(target: StoryId, o: ObsId)
      requires o in placed
      modifies this
      ensures State() == Move(old(State()), target, o)
    {
      var source := placed[o];
      if source != target {
        placed := placed[o := target];
        if !Holds(placed, source) {
          merged := merged[source := Some(target)];
        }
      }
    }

    /** The link loop; an unknown observation rolls the moves back. */
    method MoveEach(target: StoryId, moved: seq<ObsId>) returns (ok: bool)
      modifies this
      ensures ok <==> Known(old(State()), moved)
      ensures State() == if ok then MoveAll(old(State()), target, moved) else old(State())
    {
      var placedBefore, mergedBefore := placed, merged;
      ghost var before := State();
      var i := 0;
      while i < |moved|
        invariant 0 <= i <= |moved|
        invariant Known(before, moved[..i]) && State() == MoveAll(before, target, moved[..i])
        invariant observed == before.observed
      {
        var o := moved[i];
        if o !in placed {
          placed, merged := placedBefore, mergedBefore;
          return false;
        }
        MoveAllStep(before, target, moved, i);
        MoveObservation(target, o);
        i := i + 1;
      }
      assert moved[..i] == moved;
      return true;
    }

    /** The story-link arm of `apply_federated_contribution`. */
    method LinkStory(target: StoryId, moved: seq<ObsId>) returns (r: Result<(), Error>)
      requires Forest(State())
      modifies this
      ensures Forest(State())
      ensures r.Ok? <==> Imports(old(State()), Link(target, moved))
      ensures State() == if r.Ok? then MoveAll(old(State()), target, moved) else old(State())
    {
      if moved == [] {
        return Err(Validation);
      }
      if target !in merged || merged[target].Some? {
        return Err(Unauthorized);
      }
      ghost var before := State();
      var ok := MoveEach(target, moved);
      if !ok {
        return Err(Unauthorized);
      }
      LinkKeepsForest(before, target, moved);
      return Ok(());
    }
  }
}
