/**
  Filtered topic pages (src/db.rs `forum_topics`): the table is scanned in
  batches of 200 rows, rows whose computed status is filtered out are skipped,
  and the cursor of the last topic shown resumes the scan.
*/
module TopicPaging {
  import opened Common

  const BATCH := 200
  const DAY: int := 24 * 60 * 60 * 1000

  /** A row with what its status is computed from. */
  datatype Topic = Topic(createdAt: int, id: nat, approved: bool, lastActivity: int, archiveAfterDays: nat)

  datatype Cursor = Cursor(createdAt: int, id: nat)

  datatype Status = Proposed | Dormant | Active

  /** The request's filters at one clock reading. */
  datatype Filter = Filter(includeProposed: bool, includeDormant: bool, now: int)

  datatype Page = Page(topics: seq<Topic>, next: Option<Cursor>, hasMore: bool)

  /** `topic_status`. */
  function StatusOf(t: Topic, now: int): Status
  {
    if !t.approved then Proposed
    else if now - t.lastActivity > t.archiveAfterDays * DAY then Dormant
    else Active
  }

  predicate Shows(f: Filter, t: Topic)
  {
    && (f.includeProposed || StatusOf(t, f.now) != Proposed)
    && (f.includeDormant || StatusOf(t, f.now) != Dormant)
  }

  /** `created_at DESC, topic_id ASC`. */
  predicate Before(c: Cursor, t: Topic)
  {
    t.createdAt < c.createdAt || (t.createdAt == c.createdAt && t.id > c.id)
  }

  function CursorOf(t: Topic): Cursor
  {
    Cursor(t.createdAt, t.id)
  }

  /** The table in the order of the query; topic ids are distinct, so the order is strict. */
  predicate Sorted(table: seq<Topic>)
  {
    forall i, j :: 0 <= i < j < |table| ==> InOrder(table, i, j)
  }

  predicate InOrder(table: seq<Topic>, i: int, j: int)
    requires 0 <= i < |table| && 0 <= j < |table|
  {
    Before(CursorOf(table[i]), table[j])
  }

  predicate Follows(after: Option<Cursor>, t: Topic)
  {
    after.Some? ==> Before(after.value, t)
  }

  // ---------------------------------------------------------- specification

  /** The rows a filter shows, in table order. */
  function Shown(rows: seq<Topic>, f: Filter): (r: seq<Topic>)
    ensures |r| <= |rows|
  {
    if rows == [] then []
    else
      var last := rows[|rows| - 1];
      Shown(rows[..|rows| - 1], f) + if Shows(f, last) then [last] else []
  }

  /** The `WHERE` clause: rows past the scan position. */
  function Past(table: seq<Topic>, after: Option<Cursor>): (r: seq<Topic>)
    ensures |r| <= |table|
  {
    if table == [] then []
    else
      var last := table[|table| - 1];
      Past(table[..|table| - 1], after) + if Follows(after, last) then [last] else []
  }

  /** The scan position stands right before row `i`. */
  predicate At(table: seq<Topic>, after: Option<Cursor>, i: nat)
  {
    i <= |table| && Past(table, after) == table[i..]
  }

  /** One batch: `ORDER BY … LIMIT 200`. */
  function Query(table: seq<Topic>, after: Option<Cursor>): seq<Topic>
  {
    Past(table, after)[..Min(|Past(table, after)|, BATCH)]
  }

  /** What a page is for: the first `limit` shown rows past the cursor, and whether there are more. */
  function PageOf(table: seq<Topic>, after: Option<Cursor>, f: Filter, limit: nat): Page
  {
    Cut(Shown(Past(table, after), f), limit)
  }

  function Cut(all: seq<Topic>, limit: nat): Page
  {
    var topics := all[..Min(|all|, limit)];
    Page(topics, if topics == [] then None else Some(CursorOf(topics[|topics| - 1])), |all| > limit)
  }

  // ------------------------------------------------------------ table lemmas

  lemma {:induction false} ShownConcat(a: seq<Topic>, b: seq<Topic>, f: Filter)
    ensures Shown(a + b, f) == Shown(a, f) + Shown(b, f)
  {
    if b == [] {
      assert a + b == a;
    } else {
      ShownConcat(a, b[..|b| - 1], f);
      assert (a + b)[..|a + b| - 1] == a + b[..|b| - 1];
    }
  }

  /** Where the rows past a position are the last ones, they are the suffix. */
  lemma {:induction false} PastIsSuffix(table: seq<Topic>, after: Option<Cursor>, i: nat)
    requires i <= |table|
    requires forall j :: 0 <= j < |table| ==> (Follows(after, table[j]) <==> i <= j)
    ensures Past(table, after) == table[i..]
  {
    if table != [] {
      var front := table[..|table| - 1];
      if i < |table| {
        PastIsSuffix(front, after, i);
        assert table[i..] == front[i..] + [table[|table| - 1]];
      } else {
        PastIsSuffix(front, after, i - 1);
        assert front[i - 1..] == [] && table[i..] == [];
      }
    }
  }

  /** Resuming at a row's own cursor continues right behind it. */
  lemma {:induction false} PastRow(table: seq<Topic>, i: nat)
    requires Sorted(table) && i < |table|
    ensures At(table, Some(CursorOf(table[i])), i + 1)
  {
    var after := Some(CursorOf(table[i]));
    forall j | 0 <= j < |table|
      ensures Follows(after, table[j]) <==> i < j
    {
      assert i < j ==> InOrder(table, i, j);
      assert j < i ==> InOrder(table, j, i);
    }
    PastIsSuffix(table, after, i + 1);
  }

  /** Where a scan starts. */
  lemma {:induction false} StartOf(table: seq<Topic>, after: Option<Cursor>) returns (i: nat)
    requires Sorted(table)
    ensures At(table, after, i)
  {
    i := 0;
    while i < |table| && !Follows(after, table[i])
      invariant i <= |table|
      invariant forall j :: 0 <= j < i ==> !Follows(after, table[j])
    {
      i := i + 1;
    }
    forall j | i <= j < |table|
      ensures Follows(after, table[j])
    {
      assert i < j ==> InOrder(table, i, j);
    }
    PastIsSuffix(table, after, i);
  }

  lemma {:induction false} ShownStep(rows: seq<Topic>, n: nat, f: Filter)
    requires n < |rows|
    ensures Shown(rows[..n + 1], f) == Shown(rows[..n], f) + if Shows(f, rows[n]) then [rows[n]] else []
  {
    assert rows[..n + 1][..n] == rows[..n];
  }

  /** A batch is the stretch of the table right behind the scan position, empty or short only at the end. */
  lemma {:induction false} QueryIsSlice(table: seq<Topic>, scan: Option<Cursor>, i: nat)
    requires At(table, scan, i)
    ensures var n := |Query(table, scan)|;
      && Query(table, scan) == table[i..i + n] && n <= BATCH
      && (n < BATCH ==> i + n == |table|)
  {
  }

  // ------------------------------------------------------------------- scan

  /** The inner loop: take rows until the page and one more are full. */
  method ScanBatch(candidates: seq<Topic>, topics: seq<Topic>, f: Filter, limit: nat)
    returns (topics': seq<Topic>, n: nat)
    requires |topics| <= limit
    ensures n <= |candidates| && topics' == topics + Shown(candidates[..n], f)
    ensures |topics'| <= limit ==> n == |candidates|
    ensures |topics'| <= limit + 1
    ensures candidates != [] ==> n > 0
  {
    topics', n := topics, 0;
    while n < |candidates|
      invariant n <= |candidates| && |topics'| <= limit
      invariant topics' == topics + Shown(candidates[..n], f)
    {
      var t := candidates[n];
      ShownStep(candidates, n, f);
      n := n + 1;
      if Shows(f, t) {
        topics' := topics' + [t];
        if |topics'| > limit {
          return;
        }
      }
    }
  }

  /** The rows scanned so far, extended by a part of the next batch. */
  lemma {:induction false} ScanStep(table: seq<Topic>, start: nat, i: nat, n: nat, f: Filter)
    requires start <= i && i + n <= |table|
    ensures Shown(table[start..i + n], f) == Shown(table[start..i], f) + Shown(table[i..i + n], f)
  {
    assert table[start..i + n] == table[start..i] + table[i..i + n];
    ShownConcat(table[start..i], table[i..i + n], f);
  }

  /** Taking `n` rows of a batch moves the scan by `n` rows. */
  lemma {:induction false} BatchStep(table: seq<Topic>, start: nat, i: nat, batch: seq<Topic>, n: nat, f: Filter)
    requires Sorted(table) && start <= i && 0 < n <= |batch|
    requires i + |batch| <= |table| && batch == table[i..i + |batch|]
    ensures Shown(table[start..i + n], f) == Shown(table[start..i], f) + Shown(batch[..n], f)
    ensures At(table, Some(CursorOf(batch[n - 1])), i + n)
  {
    assert batch[..n] == table[i..i + n];
    ScanStep(table, start, i, n, f);
    PastRow(table, i + n - 1);
  }

  /** Stopping the scan one topic past the limit does not change the page. */
  lemma {:induction false} CutEarly(table: seq<Topic>, start: nat, i: nat, f: Filter, limit: nat)
    requires start <= i <= |table| && (i == |table| || |Shown(table[start..i], f)| > limit)
    ensures Cut(Shown(table[start..i], f), limit) == Cut(Shown(table[start..], f), limit)
  {
    ScanStep(table, start, i, |table| - i, f);
    assert table[start..|table|] == table[start..] && table[i..|table|] == table[i..];
  }

  /** The outer loop: batch after batch, until the page overflows or the table ends. */
  method ScanTopics(table: seq<Topic>, after: Option<Cursor>, f: Filter, limit: nat)
    returns (topics: seq<Topic>, ghost start: nat, ghost i: nat)
    requires Sorted(table)
    ensures At(table, after, start) && start <= i <= |table|
    ensures topics == Shown(table[start..i], f) && (i == |table| || |topics| > limit)
  {
    start := StartOf(table, after);
    i := start;
    var scan := after;
    topics := [];
    var scanning := true;
    while scanning
      invariant start <= i <= |table| && topics == Shown(table[start..i], f)
      invariant scanning ==> |topics| <= limit && At(table, scan, i)
      invariant !scanning ==> i == |table| || |topics| > limit
      decreases scanning, |table| - i
    {
      QueryIsSlice(table, scan, i);
      var candidates := Query(table, scan);
      if candidates == [] {
        scanning := false;
      } else {
        var n;
        topics, n := ScanBatch(candidates, topics, f, limit);
        scan := Some(CursorOf(candidates[n - 1]));
        BatchStep(table, start, i, candidates, n, f);
        i := i + n;
        scanning := |topics| <= limit && |candidates| == BATCH;
      }
    }
  }

  /** `forum_topics`: the batched scan computes the page. */
  method ForumTopics(table: seq<Topic>, after: Option<Cursor>, f: Filter, limit: nat) returns (page: Page)
    requires Sorted(table)
    ensures page == PageOf(table, after, f, limit)
  {
    var topics, start, i := ScanTopics(table, after, f, limit);
    CutEarly(table, start, i, f, limit);
    var hasMore := |topics| > limit;
    if hasMore {
      topics := topics[..limit];
    }
    page := Page(topics, if topics == [] then None else Some(CursorOf(topics[|topics| - 1])), hasMore);
  }

  // ---------------------------------------------------------------- following

  lemma {:induction false} ShownFirst(table: seq<Topic>, i: nat, f: Filter)
    requires i < |table|
    ensures Shown(table[i..], f) == (if Shows(f, table[i]) then [table[i]] else []) + Shown(table[i + 1..], f)
  {
    assert table[i..] == [table[i]] + table[i + 1..];
    ShownConcat([table[i]], table[i + 1..], f);
    assert [table[i]][..0] == [];
  }

  /** The shown rows past the last shown row of a page are the rest. */
  lemma {:induction false} ShownRest(table: seq<Topic>, i: nat, f: Filter, k: nat) returns (j: nat)
    requires i <= |table| && k < |Shown(table[i..], f)|
    ensures i <= j < |table| && table[j] == Shown(table[i..], f)[k]
    ensures Shown(table[j + 1..], f) == Shown(table[i..], f)[k + 1..]
    decreases |table| - i
  {
    ShownFirst(table, i, f);
    if Shows(f, table[i]) && k == 0 {
      j := i;
    } else {
      j := ShownRest(table, i + 1, f, if Shows(f, table[i]) then k - 1 else k);
    }
  }

  /** A page's cursor leaves exactly what the page did not show. */
  lemma {:induction false} NextPage(table: seq<Topic>, after: Option<Cursor>, f: Filter, limit: nat)
    requires Sorted(table) && limit >= 1
    ensures var p := PageOf(table, after, f, limit);
      p.hasMore ==>
        && p.next.Some?
        && p.topics + Shown(Past(table, p.next), f) == Shown(Past(table, after), f)
        && |Shown(Past(table, p.next), f)| < |Shown(Past(table, after), f)|
  {
    var all := Shown(Past(table, after), f);
    if |all| > limit {
      var i := StartOf(table, after);
      var j := ShownRest(table, i, f, limit - 1);
      PastRow(table, j);
      CutRest(all, limit);
    }
  }

  lemma {:induction false} CutRest(all: seq<Topic>, limit: nat)
    requires 1 <= limit < |all|
    ensures var p := Cut(all, limit);
      p.next == Some(CursorOf(all[limit - 1])) && p.topics + all[limit..] == all && |all[limit..]| < |all|
  {
  }

  /** All topics a client collects by following `next_cursor` while `has_more`. */
  function Collected(table: seq<Topic>, after: Option<Cursor>, f: Filter, limit: nat): seq<Topic>
    requires Sorted(table) && limit >= 1
    decreases |Shown(Past(table, after), f)|
  {
    var p := PageOf(table, after, f, limit);
    NextPage(table, after, f, limit);
    if p.hasMore then p.topics + Collected(table, p.next, f, limit) else p.topics
  }

  lemma {:induction false} CollectsShown(table: seq<Topic>, after: Option<Cursor>, f: Filter, limit: nat)
    requires Sorted(table) && limit >= 1
    ensures Collected(table, after, f, limit) == Shown(Past(table, after), f)
    decreases |Shown(Past(table, after), f)|
  {
    NextPage(table, after, f, limit);
    var p := PageOf(table, after, f, limit);
    if p.hasMore {
      CollectsShown(table, p.next, f, limit);
    }
  }

  lemma {:induction false} SortedFront(rows: seq<Topic>)
    requires rows != [] && Sorted(rows)
    ensures Sorted(rows[..|rows| - 1])
  {
    var front := rows[..|rows| - 1];
    forall i, j | 0 <= i < j < |front|
      ensures InOrder(front, i, j)
    {
      assert InOrder(rows, i, j);
    }
  }

  lemma {:induction false} ShownContents(rows: seq<Topic>, f: Filter, t: Topic)
    requires Sorted(rows)
    ensures t in Shown(rows, f) <==> t in rows && Shows(f, t)
    ensures Sorted(Shown(rows, f))
  {
    if rows != [] {
      var front, last := rows[..|rows| - 1], rows[|rows| - 1];
      SortedFront(rows);
      ShownContents(front, f, t);
      assert rows == front + [last];
      var shown := Shown(front, f);
      forall k | 0 <= k < |shown|
        ensures Before(CursorOf(shown[k]), last)
      {
        ShownContents(front, f, shown[k]);
        var i :| 0 <= i < |front| && front[i] == shown[k];
        assert InOrder(rows, i, |front|);
      }
      forall i, j | 0 <= i < j < |Shown(rows, f)|
        ensures InOrder(Shown(rows, f), i, j)
      {
        assert j < |shown| ==> InOrder(shown, i, j);
      }
    }
  }

  // ------------------------------------------------------------ what it means

  /**
    Who gets to see a topic: an unapproved one is a proposal; an approved one is
    dormant once its quiet time exceeds its archive period, in milliseconds.
  */
  predicate Visible(f: Filter, t: Topic)
  {
    if t.approved then f.includeDormant || f.now <= t.lastActivity + t.archiveAfterDays * 86_400_000
    else f.includeProposed
  }

  /** Newest first, equal times by identifier. */
  predicate Newer(createdAt: int, id: nat, t: Topic)
  {
    createdAt > t.createdAt || (createdAt == t.createdAt && id < t.id)
  }

  predicate InPageOrder(topics: seq<Topic>)
  {
    forall i, j :: 0 <= i < j < |topics| ==> Newer(topics[i].createdAt, topics[i].id, topics[j])
  }

  lemma {:induction false} SortedIsPageOrder(topics: seq<Topic>)
    requires Sorted(topics)
    ensures InPageOrder(topics)
  {
    forall i, j | 0 <= i < j < |topics|
      ensures Newer(topics[i].createdAt, topics[i].id, topics[j])
    {
      assert InOrder(topics, i, j);
    }
  }

  /** The topic belongs on some page at or after the cursor. */
  predicate Due(table: seq<Topic>, after: Option<Cursor>, f: Filter, t: Topic)
  {
    t in table && Visible(f, t) && (after.Some? ==> Newer(after.value.createdAt, after.value.id, t))
  }

  lemma {:induction false} DueIsShown(table: seq<Topic>, after: Option<Cursor>, f: Filter, t: Topic)
    requires Sorted(table)
    ensures t in Shown(Past(table, after), f) <==> Due(table, after, f, t)
    ensures Sorted(Shown(Past(table, after), f))
  {
    var i := StartOf(table, after);
    var rest := table[i..];
    forall a, b | 0 <= a < b < |rest|
      ensures InOrder(rest, a, b)
    {
      assert InOrder(table, i + a, i + b);
    }
    ShownContents(rest, f, t);
    PastContents(table, after, t);
  }

  lemma {:induction false} PastContents(table: seq<Topic>, after: Option<Cursor>, t: Topic)
    ensures t in Past(table, after) <==> t in table && Follows(after, t)
  {
    if table != [] {
      PastContents(table[..|table| - 1], after, t);
      assert table == table[..|table| - 1] + [table[|table| - 1]];
    }
  }

  /**
    One page: at most `limit` due topics in order; what it leaves out comes
    behind all of them and only if the page is full; and more is announced
    exactly if something due was left out.
  */
  lemma {:induction false} PageIsExact(table: seq<Topic>, after: Option<Cursor>, f: Filter, limit: nat, t: Topic)
    requires Sorted(table)
    ensures var p := PageOf(table, after, f, limit);
      && |p.topics| <= limit && InPageOrder(p.topics)
      && (t in p.topics ==> Due(table, after, f, t))
      && (Due(table, after, f, t) && t !in p.topics ==>
        p.hasMore && |p.topics| == limit && InPageOrder(p.topics + [t]))
      && (p.hasMore ==> exists u :: Due(table, after, f, u) && u !in p.topics)
  {
    var all := Shown(Past(table, after), f);
    DueIsShown(table, after, f, t);
    SortedIsPageOrder(all);
    CutIsExact(all, limit, t);
    if |all| > limit {
      DueIsShown(table, after, f, all[limit]);
    }
  }

  lemma {:induction false} CutIsExact(all: seq<Topic>, limit: nat, t: Topic)
    requires InPageOrder(all)
    ensures var p := Cut(all, limit);
      && |p.topics| <= limit && InPageOrder(p.topics) && (t in p.topics ==> t in all)
      && (t in all && t !in p.topics ==> p.hasMore && |p.topics| == limit && InPageOrder(p.topics + [t]))
      && (p.hasMore <==> |all| > limit) && (p.hasMore ==> all[limit] !in p.topics)
  {
    var topics := Cut(all, limit).topics;
    forall k | 0 <= k < |topics|
      ensures all[k] in topics
    {
      assert topics[k] == all[k];
    }
    forall k | 0 <= k < |all| && all[k] !in topics
      ensures limit <= k && InPageOrder(topics + [all[k]])
    {
    }
  }

  /**
    For every page size, following the cursors from the start yields exactly the
    visible topics, each once, newest first.
  */
  lemma {:induction false} PagingIsExact(table: seq<Topic>, f: Filter, limit: nat, t: Topic)
    requires Sorted(table) && limit >= 1
    ensures t in Collected(table, None, f, limit) <==> t in table && Visible(f, t)
    ensures InPageOrder(Collected(table, None, f, limit))
  {
    CollectsShown(table, None, f, limit);
    DueIsShown(table, None, f, t);
    SortedIsPageOrder(Collected(table, None, f, limit));
  }

  /** Without a positive limit the cursor would not move: the first page is empty, has no cursor, and announces more. */
  lemma {:induction false} ZeroLimitSticks(table: seq<Topic>, after: Option<Cursor>, f: Filter)
    ensures var p := PageOf(table, after, f, 0);
      p.topics == [] && p.next.None? && (p.hasMore <==> exists t :: t in Past(table, after) && Shows(f, t))
  {
    ShownAny(Past(table, after), f);
  }

  lemma {:induction false} ShownAny(rows: seq<Topic>, f: Filter)
    ensures Shown(rows, f) != [] <==> exists t :: t in rows && Shows(f, t)
  {
    if rows != [] {
      ShownAny(rows[..|rows| - 1], f);
      assert rows == rows[..|rows| - 1] + [rows[|rows| - 1]];
      assert rows[|rows| - 1] in rows;
    }
  }

  /** What a client has collected, and what it has not seen yet. */
  ghost predicate Collecting(table: seq<Topic>, f: Filter, topics: seq<Topic>, at: Option<Cursor>, more: bool)
  {
    Shown(table, f) == topics + if more then Shown(Past(table, at), f) else []
  }

  lemma {:induction false} CollectStep(table: seq<Topic>, f: Filter, limit: nat, topics: seq<Topic>, at: Option<Cursor>)
    requires Sorted(table) && limit >= 1 && Collecting(table, f, topics, at, true)
    ensures var p := PageOf(table, at, f, limit);
      && Collecting(table, f, topics + p.topics, p.next, p.hasMore)
      && (p.hasMore ==> |Shown(Past(table, p.next), f)| < |Shown(Past(table, at), f)|)
  {
    NextPage(table, at, f, limit);
    var p := PageOf(table, at, f, limit);
    if p.hasMore {
      assert topics + (p.topics + Shown(Past(table, p.next), f)) == topics + p.topics + Shown(Past(table, p.next), f);
    } else {
      assert p.topics == Shown(Past(table, at), f);
    }
  }

  /** A client that follows the cursors to the end. */
  method CollectAll(table: seq<Topic>, f: Filter, limit: nat) returns (topics: seq<Topic>)
    requires Sorted(table) && limit >= 1
    ensures topics == Shown(table, f)
  {
    PastIsSuffix(table, None, 0);
    topics := [];
    var at: Option<Cursor> := None;
    var more := true;
    while more
      invariant Collecting(table, f, topics, at, more)
      decreases more, |Shown(Past(table, at), f)|
    {
      CollectStep(table, f, limit, topics, at);
      var page := ForumTopics(table, at, f, limit);
      topics := topics + page.topics;
      more, at := page.hasMore, page.next;
    }
  }
}
