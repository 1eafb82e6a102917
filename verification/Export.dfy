/** Paged export of a node's log and its offline verification (src/main.rs). */
module Export {
  import opened Common
  import opened Chain
  import opened Replica
  import opened Relay

  /** A line of an export file. */
  datatype Line = Blank | Malformed | Page(bundle: Bundle)

  datatype ExportReport = ExportReport(
    originId: NodeId, originKey: PublicKey, fromCursor: int, throughCursor: int,
    finalHash: HashText, pages: nat, events: nat, completeFromGenesis: bool)

  function Bundles(lines: seq<Line>): seq<Bundle>
  {
    if lines == [] then []
    else
      var line := lines[|lines| - 1];
      Bundles(lines[..|lines| - 1]) + (if line.Page? then [line.bundle] else [])
  }

  function Flatten(pages: seq<Bundle>): seq<OriginEvent>
  {
    if pages == [] then [] else Flatten(pages[..|pages| - 1]) + pages[|pages| - 1].events
  }

  /** Page `i` continues the one before it, which was not an empty last page. */
  predicate Follows(pages: seq<Bundle>, i: int)
    requires 0 < i < |pages|
  {
    var p, q := pages[i - 1], pages[i];
    && p.events != []
    && q.originId == p.originId && q.originKey == p.originKey
    && q.fromCursor == p.throughCursor
    && (q.events != [] ==> q.events[0].previousHash == p.checkpoint.eventHash)
  }

  predicate Accepted(pages: seq<Bundle>)
  {
    && pages != []
    && (forall i :: 0 <= i < |pages| ==> ValidBundle(pages[i]))
    && (forall i :: 0 < i < |pages| ==> Follows(pages, i))
  }

  function ReportOf(pages: seq<Bundle>): ExportReport
    requires pages != []
  {
    var first, last := pages[0], pages[|pages| - 1];
    ExportReport(first.originId, first.originKey, first.fromCursor, last.throughCursor, last.checkpoint.eventHash,
      |pages|, |Flatten(pages)|, first.fromCursor == 0)
  }

  predicate Acceptable(lines: seq<Line>)
  {
    Malformed !in lines && Accepted(Bundles(lines))
  }

  lemma {:induction false} BundlesPrefix(lines: seq<Line>, k: nat)
    requires k <= |lines|
    ensures Bundles(lines[..k]) <= Bundles(lines)
    decreases |lines|
  {
    if k == |lines| {
      assert lines[..k] == lines;
    } else {
      BundlesPrefix(lines[..|lines| - 1], k);
      assert lines[..|lines| - 1][..k] == lines[..k];
    }
  }

  lemma {:induction false} AcceptedPrefix(pages: seq<Bundle>, n: nat)
    requires Accepted(pages) && 0 < n <= |pages|
    ensures Accepted(pages[..n])
  {
    forall i | 0 < i < n
      ensures Follows(pages[..n], i)
    {
      assert Follows(pages, i);
    }
  }

  lemma {:induction false} AcceptableSoFar(lines: seq<Line>, k: nat)
    requires Acceptable(lines) && k <= |lines|
    ensures Bundles(lines[..k]) == [] || Accepted(Bundles(lines[..k]))
  {
    BundlesPrefix(lines, k);
    var n := |Bundles(lines[..k])|;
    if n > 0 {
      AcceptedPrefix(Bundles(lines), n);
      assert Bundles(lines)[..n] == Bundles(lines[..k]);
    }
  }

  lemma {:induction false} RejectedForGood(lines: seq<Line>, k: nat)
    requires k <= |lines| && Bundles(lines[..k]) != [] && !Accepted(Bundles(lines[..k]))
    ensures !Acceptable(lines)
  {
    if Acceptable(lines) {
      AcceptableSoFar(lines, k);
    }
  }

  lemma {:induction false} AcceptedNext(pages: seq<Bundle>, q: Bundle)
    requires pages == [] || Accepted(pages)
    ensures Accepted(pages + [q]) <==> ValidBundle(q) && (pages != [] ==> Follows(pages + [q], |pages|))
  {
    var next := pages + [q];
    if Accepted(next) {
      assert ValidBundle(next[|pages|]);
    }
    forall i | 0 < i < |pages|
      ensures Follows(next, i)
    {
      assert Follows(pages, i);
    }
  }

  lemma {:induction false} SameOrigin(pages: seq<Bundle>, i: nat)
    requires Accepted(pages) && i < |pages|
    ensures pages[i].originId == pages[0].originId && pages[i].originKey == pages[0].originKey
  {
    if i > 0 {
      SameOrigin(pages, i - 1);
      assert Follows(pages, i);
    }
  }

  /** When one more page is accepted, in terms of what the verifier carries from page to page. */
  lemma {:induction false} AcceptedMore(pages: seq<Bundle>, q: Bundle)
    requires Accepted(pages)
    ensures var last := pages[|pages| - 1];
      Accepted(pages + [q]) <==>
        && ValidBundle(q) && last.events != []
        && q.originId == pages[0].originId && q.originKey == pages[0].originKey
        && q.fromCursor == last.throughCursor
        && (q.events != [] ==> q.events[0].previousHash == last.checkpoint.eventHash)
  {
    AcceptedNext(pages, q);
    SameOrigin(pages, |pages| - 1);
  }

  lemma {:induction false} FlattenMore(pages: seq<Bundle>, q: Bundle)
    ensures Flatten(pages + [q]) == Flatten(pages) + q.events
  {
    assert (pages + [q])[..|pages|] == pages;
  }

  /** What `verify_export` carries from line to line. */
  datatype Carried = Carried(
    origin: Option<(NodeId, PublicKey)>, firstCursor: int, cursor: int, eventHash: HashText,
    pages: nat, events: nat, sawEmptyPage: bool)

  ghost predicate Carries(c: Carried, ps: seq<Bundle>)
  {
    if ps == [] then c.origin.None? && c.pages == 0 && c.events == 0 && !c.sawEmptyPage
    else
      && Accepted(ps)
      && c == Carried(Some((ps[0].originId, ps[0].originKey)), ps[0].fromCursor, ps[|ps| - 1].throughCursor,
                ps[|ps| - 1].checkpoint.eventHash, |ps|, |Flatten(ps)|, ps[|ps| - 1].events == [])
  }

  method VerifyPage(c: Carried, bundle: Bundle, ghost ps: seq<Bundle>) returns (r: Result<Carried, Error>)
    requires Carries(c, ps)
    ensures r.Ok? <==> Accepted(ps + [bundle])
    ensures r.Ok? ==> Carries(r.value, ps + [bundle])
  {
    if ps == [] { AcceptedNext(ps, bundle); } else { AcceptedMore(ps, bundle); }
    FlattenMore(ps, bundle);
    if c.sawEmptyPage { return Err(Validation); }
    var verified := VerifyBundle(bundle);
    if verified.Err? { return Err(verified.error); }
    var firstCursor := bundle.fromCursor;
    if c.origin.Some? {
      if c.origin.value != (bundle.originId, bundle.originKey) { return Err(Validation); }
      if bundle.fromCursor != c.cursor { return Err(Validation); }
      if bundle.events != [] && bundle.events[0].previousHash != c.eventHash { return Err(Validation); }
      firstCursor := c.firstCursor;
    }
    return Ok(Carried(Some((bundle.originId, bundle.originKey)), firstCursor, bundle.throughCursor,
                      bundle.checkpoint.eventHash, c.pages + 1, c.events + |bundle.events|, bundle.events == []));
  }

  /** `verify_export`: one pass over the lines that carries the previous page's end. */
  method VerifyExport(lines: seq<Line>) returns (r: Result<ExportReport, Error>)
    ensures r.Ok? <==> Acceptable(lines)
    ensures r.Ok? ==> r.value == ReportOf(Bundles(lines))
  {
    var c := Carried(None, 0, 0, ZERO_HASH, 0, 0, false);
    for k := 0 to |lines|
      invariant Malformed !in lines[..k]
      invariant Carries(c, Bundles(lines[..k]))
    {
      assert lines[..k + 1][..k] == lines[..k];
      assert lines[..k + 1] == lines[..k] + [lines[k]];
      if lines[k].Blank? {
        assert Bundles(lines[..k + 1]) == Bundles(lines[..k]);
        continue;
      }
      if lines[k].Malformed? { return Err(Validation); }
      assert Bundles(lines[..k + 1]) == Bundles(lines[..k]) + [lines[k].bundle];
      var next := VerifyPage(c, lines[k].bundle, Bundles(lines[..k]));
      if next.Err? {
        RejectedForGood(lines, k + 1);
        return Err(next.error);
      }
      c := next.value;
    }
    assert lines[..|lines|] == lines;
    if c.origin.None? { return Err(Validation); }
    return Ok(ExportReport(c.origin.value.0, c.origin.value.1, c.firstCursor, c.cursor, c.eventHash, c.pages,
      c.events, c.firstCursor == 0));
  }

  // ------------------------------------------------- pages and the whole log

  /** Consecutive page headers of one origin. */
  predicate Adjoins(pages: seq<Bundle>, i: int)
    requires 0 < i < |pages|
  {
    && pages[i].originId == pages[0].originId && pages[i].originKey == pages[0].originKey
    && pages[i].fromCursor == pages[i - 1].throughCursor
  }

  /** Non-empty pages with good headers that adjoin one another. */
  predicate Paged(pages: seq<Bundle>)
  {
    && pages != []
    && (forall i :: 0 <= i < |pages| ==> ValidHeader(pages[i]) && pages[i].events != [])
    && (forall i :: 0 < i < |pages| ==> Adjoins(pages, i))
  }

  lemma {:induction false} ValidEventsSplit(key: PublicKey, from: int, a: seq<OriginEvent>, b: seq<OriginEvent>)
    requires 0 <= from && a != [] && b != [] && ValidEvents(key, from, a + b)
    ensures ValidEvents(key, from, a) && ValidEvents(key, from + |a|, b) && b[0].previousHash == a[|a| - 1].eventHash
  {
    var es := a + b;
    forall i | 0 <= i < |a|
      ensures ValidAt(key, from, a, i) && (0 < i ==> LinkedAt(a, i))
    {
      assert ValidAt(key, from, es, i) && (0 < i ==> LinkedAt(es, i));
    }
    var next := from + |a|;
    forall i | 0 <= i < |b|
      ensures ValidAt(key, next, b, i)
    {
      assert ValidAt(key, from, es, |a| + i);
    }
    forall i | 0 < i < |b|
      ensures LinkedAt(b, i)
    {
      assert LinkedAt(es, |a| + i);
      assert es[|a| + i - 1] == b[i - 1];
    }
    assert LinkedAt(es, |a|);
    assert es[0] == a[0];
  }

  lemma {:induction false} ValidEventsJoin(key: PublicKey, from: int, a: seq<OriginEvent>, b: seq<OriginEvent>)
    requires 0 <= from && a != [] && b != []
    requires ValidEvents(key, from, a) && ValidEvents(key, from + |a|, b) && b[0].previousHash == a[|a| - 1].eventHash
    ensures ValidEvents(key, from, a + b)
  {
    var es := a + b;
    forall i | 0 <= i < |es|
      ensures ValidAt(key, from, es, i) && (0 < i ==> LinkedAt(es, i))
    {
      if i < |a| {
        assert ValidAt(key, from, a, i) && (0 < i ==> LinkedAt(a, i));
      } else {
        assert ValidAt(key, from + |a|, b, i - |a|) && (|a| < i ==> LinkedAt(b, i - |a|));
      }
    }
    assert es[0] == a[0];
  }

  lemma {:induction false} PagedPrefix(pages: seq<Bundle>, n: nat)
    requires Paged(pages) && 0 < n <= |pages|
    ensures Paged(pages[..n])
  {
    forall i | 0 < i < n
      ensures Adjoins(pages[..n], i)
    {
      assert Adjoins(pages, i);
    }
  }

  lemma {:induction false} FlattenEnds(pages: seq<Bundle>)
    requires Paged(pages)
    ensures var es := Flatten(pages); var last := pages[|pages| - 1];
      && es != [] && |es| == last.throughCursor - pages[0].fromCursor
      && es[|es| - 1].eventHash == last.checkpoint.eventHash
    decreases |pages|
  {
    var last := pages[|pages| - 1];
    assert ValidHeader(last) && last.events != [];
    if |pages| > 1 {
      PagedPrefix(pages, |pages| - 1);
      FlattenEnds(pages[..|pages| - 1]);
      assert Adjoins(pages, |pages| - 1);
    } else {
      assert pages[..0] == [];
    }
  }

  /** What ties an accepted last page to the pages before it. */
  lemma {:induction false} LastPage(front: seq<Bundle>, last: Bundle)
    requires front != [] && Accepted(front + [last])
    ensures ValidBundle(last) && last.originKey == front[|front| - 1].originKey
    ensures last.fromCursor == front[|front| - 1].throughCursor
    ensures last.events != [] ==> last.events[0].previousHash == front[|front| - 1].checkpoint.eventHash
  {
    var pages, n := front + [last], |front|;
    assert pages[n] == last && pages[n - 1] == front[n - 1];
    assert ValidBundle(pages[n]) && Follows(pages, n);
  }

  /** Accepted pages and one more accepted page hold one chain. */
  lemma {:induction false} PagesJoin(front: seq<Bundle>, last: Bundle)
    requires Paged(front) && Accepted(front) && Accepted(front + [last]) && last.events != []
    requires ValidEvents(front[0].originKey, front[0].fromCursor, Flatten(front))
    ensures ValidEvents(front[0].originKey, front[0].fromCursor, Flatten(front) + last.events)
  {
    FlattenEnds(front);
    SameOrigin(front, |front| - 1);
    LastPage(front, last);
    assert ValidHeader(front[0]);
    ValidEventsJoin(front[0].originKey, front[0].fromCursor, Flatten(front), last.events);
  }

  /** A page that carries on the chain of accepted pages is accepted. */
  lemma {:induction false} PagesExtend(front: seq<Bundle>, last: Bundle)
    requires front != [] && Paged(front + [last]) && Paged(front) && Accepted(front)
    requires ValidEvents(front[0].originKey, front[0].fromCursor, Flatten(front) + last.events)
    ensures Accepted(front + [last])
  {
    var pages, n := front + [last], |front|;
    FlattenEnds(front);
    assert Adjoins(pages, n) && ValidHeader(pages[n]) && pages[n].events != [];
    ValidEventsSplit(front[0].originKey, front[0].fromCursor, Flatten(front), last.events);
    AcceptedMore(front, last);
  }

  lemma {:induction false} RefineStep(front: seq<Bundle>, last: Bundle)
    requires front != [] && Paged(front + [last]) && Paged(front)
    requires Accepted(front) <==> ValidEvents(front[0].originKey, front[0].fromCursor, Flatten(front))
    ensures Accepted(front + [last]) <==>
      ValidEvents(front[0].originKey, front[0].fromCursor, Flatten(front) + last.events)
  {
    var pages, n := front + [last], |front|;
    assert pages[..n] == front;
    assert pages[n] == last && pages[n].events != [] && ValidHeader(front[0]);
    if Accepted(pages) {
      AcceptedPrefix(pages, n);
      PagesJoin(front, last);
    }
    if ValidEvents(front[0].originKey, front[0].fromCursor, Flatten(front) + last.events) {
      FlattenEnds(front);
      ValidEventsSplit(front[0].originKey, front[0].fromCursor, Flatten(front), last.events);
      PagesExtend(front, last);
    }
  }

  /**
    Paged verification is whole-log verification: adjoining non-empty pages are
    accepted exactly if all their events together form one contiguous signed
    chain, as if they had come in a single bundle of any size.
  */
  lemma {:induction false} PagesRefineWholeLog(pages: seq<Bundle>)
    requires Paged(pages)
    ensures Accepted(pages) <==> ValidEvents(pages[0].originKey, pages[0].fromCursor, Flatten(pages))
    decreases |pages|
  {
    var n := |pages| - 1;
    var front, last := pages[..n], pages[n];
    assert pages == front + [last];
    FlattenMore(front, last);
    if n == 0 {
      assert front == [] && Flatten(front) == [] && Flatten(pages) == last.events;
      assert ValidHeader(pages[0]);
    } else {
      PagedPrefix(pages, n);
      PagesRefineWholeLog(front);
      RefineStep(front, last);
    }
  }

  /** An accepted export without an empty last page reports the true range, count and head of its chain. */
  lemma {:induction false} AcceptedReport(pages: seq<Bundle>)
    requires Accepted(pages) && pages[|pages| - 1].events != []
    ensures Paged(pages)
    ensures var report := ReportOf(pages); var es := Flatten(pages);
      && ValidEvents(report.originKey, report.fromCursor, es)
      && report.events == |es| == report.throughCursor - report.fromCursor
      && report.finalHash == es[|es| - 1].eventHash
      && report.originId == NodeIdOf(report.originKey) && report.pages == |pages|
      && report.fromCursor + 1 == es[0].sequence && report.throughCursor == es[|es| - 1].sequence
      && (report.completeFromGenesis <==> es[0].sequence == 1)
  {
    forall i | 0 <= i < |pages|
      ensures pages[i].events != [] && (0 < i ==> Adjoins(pages, i))
    {
      assert ValidBundle(pages[i]);
      SameOrigin(pages, i);
      assert 0 < i ==> Follows(pages, i);
      assert i + 1 < |pages| ==> Follows(pages, i + 1);
    }
    PagesRefineWholeLog(pages);
    FlattenEnds(pages);
    FirstAndLast(pages[0].originKey, pages[0].fromCursor, Flatten(pages));
  }

  lemma {:induction false} FirstAndLast(key: PublicKey, from: int, es: seq<OriginEvent>)
    requires ValidEvents(key, from, es) && es != []
    ensures es[0].sequence == from + 1 && es[|es| - 1].sequence == from + |es|
  {
    assert ValidAt(key, from, es, 0) && ValidAt(key, from, es, |es| - 1);
  }

  /**
    Every accepted export that ends in an empty page: the events are those of
    the pages before it, and the reported final hash is the head of their chain
    exactly if the empty page repeats the hash of the page before it.  A lone
    empty page reports no events and whatever hash its checkpoint states.
  */
  lemma {:induction false} EmptyLastPage(front: seq<Bundle>, last: Bundle)
    requires Accepted(front + [last]) && last.events == []
    ensures var report := ReportOf(front + [last]); var es := Flatten(front + [last]);
      if front == [] then
        && es == [] && report.fromCursor == report.throughCursor
        && report.finalHash == last.checkpoint.eventHash
        && (report.fromCursor == 0 ==> report.finalHash == ZERO_HASH)
      else
        && es == Flatten(front) != [] && ValidEvents(report.originKey, report.fromCursor, es)
        && report.events == |es| == report.throughCursor - report.fromCursor
        && (report.finalHash == es[|es| - 1].eventHash <==>
          last.checkpoint.eventHash == front[|front| - 1].checkpoint.eventHash)
  {
    var pages, n := front + [last], |front|;
    assert ValidBundle(pages[n]);
    FlattenMore(front, last);
    if n > 0 {
      assert pages[..n] == front;
      AcceptedPrefix(pages, n);
      assert Follows(pages, n);
      AcceptedReport(front);
    }
  }

  /** And nothing ties that hash down: after any accepted pages an empty page with any hash is accepted. */
  lemma {:induction false} EmptyPageUnbound(pages: seq<Bundle>, hash: HashText, createdAt: int) returns (last: Bundle)
    requires Accepted(pages) && pages[|pages| - 1].events != []
    ensures last.events == [] && Accepted(pages + [last])
    ensures ReportOf(pages + [last]).finalHash == hash
  {
    var p := pages[|pages| - 1];
    assert ValidBundle(p);
    last := Bundle(PROTOCOL_VERSION, p.originId, p.originKey, p.throughCursor, p.throughCursor, [],
      SignCheckpoint(p.originKey, p.throughCursor, hash, createdAt));
    AcceptedNext(pages, last);
  }

  // --------------------------------------------------------------- exporting

  /** Pages cut from one log at any cursors, each under a genuine checkpoint. */
  ghost predicate CutsOf(key: PublicKey, log: seq<OriginEvent>, pages: seq<Bundle>)
  {
    && pages != []
    && (forall i :: 0 <= i < |pages| ==> Serves(key, log, pages[i].fromCursor, pages[i]))
    && (forall i :: 0 < i < |pages| ==> CutAt(pages, i))
  }

  predicate CutAt(pages: seq<Bundle>, i: int)
    requires 0 < i < |pages|
  {
    pages[i].fromCursor == pages[i - 1].throughCursor && pages[i - 1].events != []
  }

  lemma {:induction false} CutsMore(key: PublicKey, log: seq<OriginEvent>, pages: seq<Bundle>, b: Bundle)
    requires pages == [] ||
      (CutsOf(key, log, pages) && pages[|pages| - 1].throughCursor == b.fromCursor && pages[|pages| - 1].events != [])
    requires Serves(key, log, b.fromCursor, b)
    ensures CutsOf(key, log, pages + [b])
  {
    forall i | 0 < i < |pages + [b]|
      ensures CutAt(pages + [b], i)
    {
      assert i < |pages| ==> CutAt(pages, i);
    }
  }

  /** Every way to cut a log into pages is accepted. */
  lemma {:induction false} EverySplitIsAccepted(key: PublicKey, log: seq<OriginEvent>, pages: seq<Bundle>)
    requires IsLog(key, log) && CutsOf(key, log, pages)
    ensures Accepted(pages)
    ensures ReportOf(pages).finalHash == HashTextAt(log, pages[|pages| - 1].throughCursor)
  {
    forall i | 0 <= i < |pages|
      ensures ValidBundle(pages[i]) && (0 < i ==> Follows(pages, i))
    {
      assert Serves(key, log, pages[i].fromCursor, pages[i]);
      if 0 < i {
        assert CutAt(pages, i);
        assert Serves(key, log, pages[i - 1].fromCursor, pages[i - 1]);
        if pages[i].events != [] {
          var k := pages[i].fromCursor;
          assert SealedAt(key, log, k);
          LogHash(key, log, k);
        }
      }
    }
    assert Serves(key, log, pages[|pages| - 1].fromCursor, pages[|pages| - 1]);
  }

  /** The pages so far hold the log from `after` up to `cursor`. */
  ghost predicate ExportedTo(db: Db, pages: seq<Bundle>, after: int, cursor: int)
  {
    && 0 <= after <= cursor <= |db.log|
    && Flatten(pages) == db.log[after..cursor]
    && (pages == [] ==> cursor == after)
    && (pages != [] ==>
          && CutsOf(db.key, db.log, pages)
          && pages[0].fromCursor == after && pages[|pages| - 1].throughCursor == cursor
          && (cursor < |db.log| ==> pages[|pages| - 1].events != []))
  }

  lemma {:induction false} ExportStep(db: Db, pages: seq<Bundle>, after: int, cursor: int, b: Bundle)
    requires ExportedTo(db, pages, after, cursor) && Serves(db.key, db.log, cursor, b)
    requires pages == [] || cursor < |db.log|
    ensures ExportedTo(db, pages + [b], after, b.throughCursor)
  {
    FlattenMore(pages, b);
    CutsMore(db.key, db.log, pages, b);
    SlicesJoin(db.log, after, cursor, b.throughCursor);
  }

  lemma {:induction false} SlicesJoin(log: seq<OriginEvent>, i: int, j: int, k: int)
    requires 0 <= i <= j <= k <= |log|
    ensures log[i..k] == log[i..j] + log[j..k]
  {
  }

  lemma {:induction false} ExportEnds(db: Db, pages: seq<Bundle>, after: int)
    requires Inv(db) && pages != [] && ExportedTo(db, pages, after, |db.log|)
    ensures Accepted(pages) && Flatten(pages) == db.log[after..]
    ensures var report := ReportOf(pages);
      && report.fromCursor == after && report.throughCursor == |db.log|
      && report.finalHash == HashTextAt(db.log, |db.log|)
  {
    EverySplitIsAccepted(db.key, db.log, pages);
  }

  /**
    The export loop, with a clock reading per page.  It never stalls, its pages
    verify, are full but for the last, and together are the log from the
    requested cursor to the head.
  */
  method ExportLog(db: Db, after: int, clock: nat -> int) returns (r: Result<seq<Bundle>, Error>)
    requires Inv(db)
    ensures r.Ok? <==> 0 <= after <= |db.log|
    ensures r.Ok? ==> Accepted(r.value) && Flatten(r.value) == db.log[after..]
    ensures r.Ok? ==> var report := ReportOf(r.value);
      && report.fromCursor == after && report.throughCursor == |db.log|
      && report.finalHash == HashTextAt(db.log, |db.log|)
    ensures r.Ok? ==> forall i :: 0 <= i < |r.value| - 1 ==> |r.value[i].events| == 500
  {
    var snapshotHead := |db.log|;
    if after < 0 || after > snapshotHead { return Err(Validation); }
    var cursor := after;
    var pages: seq<Bundle> := [];
    if cursor == snapshotHead {
      OriginServes(db, cursor, 1, clock(0));
      var page := FederationBundle(db, cursor, 1, clock(0));
      if page.Err? { return Err(Validation); }
      ExportStep(db, pages, after, cursor, page.value);
      pages := pages + [page.value];
    }
    while cursor < snapshotHead
      invariant ExportedTo(db, pages, after, cursor)
      invariant pages == [] ==> cursor < snapshotHead
      invariant forall i :: 0 <= i < |pages| && (i < |pages| - 1 || cursor < snapshotHead) ==>
        |pages[i].events| == 500
    {
      var remaining := Min(snapshotHead - cursor, 500);
      OriginServes(db, cursor, remaining, clock(|pages|));
      var page := FederationBundle(db, cursor, remaining, clock(|pages|));
      if page.Err? { return Err(Validation); }
      var bundle := page.value;
      if bundle.throughCursor <= cursor { return Err(Internal); }
      ExportStep(db, pages, after, cursor, bundle);
      cursor := bundle.throughCursor;
      pages := pages + [bundle];
    }
    ExportEnds(db, pages, after);
    return Ok(pages);
  }
}
