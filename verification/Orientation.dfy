/**
  How imported story changes reach a reader who pages through the local log
  (src/service.rs `orient`, src/db.rs `federated_changed_story_ids`).
*/
module Orientation {
  import opened Common
  import opened Chain
  import opened Replica
  import opened Network
  import opened Witnessing

  const MAX_ORIENTATION_PAGE := 100

  /** The events a page is made from, and where the next one starts. */
  datatype Page = Page(events: seq<OriginEvent>, nextCursor: int, hasMore: bool)

  /** Fetch one event more than a page, truncate, and continue after the last one kept. */
  function Orient(log: seq<OriginEvent>, from: int): Result<Page, Error>
  {
    if from < 0 then Err(Validation)
    else
      var fetched := if from >= |log| then [] else log[from..Min(from + MAX_ORIENTATION_PAGE + 1, |log|)];
      var kept := if |fetched| > MAX_ORIENTATION_PAGE then fetched[..MAX_ORIENTATION_PAGE] else fetched;
      Ok(Page(kept, if kept == [] then from else kept[|kept| - 1].sequence, |fetched| > MAX_ORIENTATION_PAGE))
  }

  /**
    A page holds exactly the next hundred events, or what is left; the next one
    starts where it ends, and more is announced exactly if events remain.  From
    a cursor at or beyond the head the page is empty and stays where it is.
  */
  lemma {:induction false} OrientAdvances(key: PublicKey, log: seq<OriginEvent>, from: int)
    requires IsLog(key, log)
    ensures Orient(log, from).Ok? <==> from >= 0
    ensures 0 <= from < |log| ==>
      var page, next := Orient(log, from).value, Min(from + 100, |log|);
      page.events == log[from..next] && page.nextCursor == next && (page.hasMore <==> from + 100 < |log|)
    ensures from >= |log| ==> Orient(log, from).value == Page([], from, false)
  {
    if 0 <= from < |log| {
      var next := Min(from + MAX_ORIENTATION_PAGE, |log|);
      assert SealedAt(key, log, next - 1);
    }
  }

  /** The window holds the remote event, and its witness falls in the local range (after, through]. */
  predicate Announces(w: Window, after: int, through: int, o: NodeId, sequence: int)
  {
    Covers(w, o, sequence) && after < w.witnessSequence <= through
  }

  /** The remote event lies in a window that is announced in the range. */
  ghost predicate Surfaced(db: Db, after: int, through: int, o: NodeId, sequence: int)
  {
    exists i :: 0 <= i < |db.imports| && Announces(db.imports[i], after, through, o, sequence)
  }

  /**
    How one origin's log becomes story rows: the stories an event touches when
    it is projected on top of the log before it, and the stories left unmerged
    by a log.  Whatever the projection does, it reads the origin's log only.
  */
  datatype Projection = Projection(touches: seq<OriginEvent> -> set<int>, live: seq<OriginEvent> -> set<int>)

  /** A row of `federated_story_events`: the event was retained and touched the story. */
  predicate StoryRow(db: Db, p: Projection, o: NodeId, story: int, sequence: int)
  {
    && o in db.replicas && 1 <= sequence <= |db.replicas[o].events|
    && story in p.touches(db.replicas[o].events[..sequence])
  }

  /** `federated_changed_story_ids`: a live story with a row in a window of the range. */
  ghost predicate IsChanged(db: Db, p: Projection, after: int, through: int, o: NodeId, story: int)
  {
    && o in db.replicas && story in p.live(db.replicas[o].events)
    && exists sequence :: StoryRow(db, p, o, story, sequence) && Surfaced(db, after, through, o, sequence)
  }

  /** A reader's pages over time: page `i` was read in state `states[i]`, from `cursors[i]` to `cursors[i + 1]`. */
  ghost predicate Reading(states: seq<Db>, cursors: seq<int>)
  {
    && |cursors| == |states| + 1
    && (states != [] ==> 0 <= cursors[0] <= |states[0].log|)
    && (forall i :: 0 <= i < |states| ==> Inv(states[i]) && PageRead(states[i], cursors[i], cursors[i + 1]))
    && (forall i, j :: 0 <= i < j < |states| ==> Later(states[i], states[j]))
  }

  predicate PageRead(db: Db, from: int, next: int)
  {
    Orient(db.log, from).Ok? && Orient(db.log, from).value.nextCursor == next
  }

  /** Page bounds never pass the head of the state they were read in. */
  lemma {:induction false} ReadingBounds(states: seq<Db>, cursors: seq<int>, i: nat)
    requires Reading(states, cursors) && i < |states|
    ensures 0 <= cursors[i] <= cursors[i + 1] <= |states[i].log|
  {
    assert PageRead(states[i], cursors[i], cursors[i + 1]);
    if i > 0 {
      ReadingBounds(states, cursors, i - 1);
      assert Later(states[i - 1], states[i]);
    }
    OrientAdvances(states[i].key, states[i].log, cursors[i]);
  }

  /** The page whose range holds `q`. */
  lemma {:induction false} PageOf(cursors: seq<int>, n: nat, q: int) returns (i: nat)
    requires n < |cursors| && cursors[0] < q <= cursors[n]
    ensures i < n && cursors[i] < q <= cursors[i + 1]
  {
    if q > cursors[n - 1] {
      i := n - 1;
    } else {
      i := PageOf(cursors, n - 1, q);
    }
  }

  lemma {:induction false} CursorsGrow(states: seq<Db>, cursors: seq<int>, i: nat, j: nat)
    requires Reading(states, cursors) && i <= j <= |states|
    ensures cursors[i] <= cursors[j]
  {
    if i < j {
      CursorsGrow(states, cursors, i, j - 1);
      ReadingBounds(states, cursors, j - 1);
    }
  }

  function EventsRead(db: Db, from: int): seq<OriginEvent>
  {
    var page := Orient(db.log, from);
    if page.Ok? then page.value.events else []
  }

  /** Each page's events. */
  function PagesOf(states: seq<Db>, cursors: seq<int>): (pages: seq<seq<OriginEvent>>)
    requires |cursors| == |states| + 1
    ensures |pages| == |states| && forall i :: 0 <= i < |pages| ==> pages[i] == EventsRead(states[i], cursors[i])
  {
    seq(|states|, i requires 0 <= i < |states| => EventsRead(states[i], cursors[i]))
  }

  function Joined(parts: seq<seq<OriginEvent>>): seq<OriginEvent>
  {
    if parts == [] then [] else Joined(parts[..|parts| - 1]) + parts[|parts| - 1]
  }

  lemma {:induction false} PageIsSlice(db: Db, final: Db, from: int, next: int)
    requires Inv(db) && PageRead(db, from, next) && db.log <= final.log && 0 <= from <= next <= |db.log|
    ensures EventsRead(db, from) == final.log[from..next]
  {
    OrientAdvances(db.key, db.log, from);
    assert db.log == final.log[..|db.log|];
  }

  predicate Slice(part: seq<OriginEvent>, from: int, next: int, log: seq<OriginEvent>)
  {
    0 <= from <= next <= |log| && part == log[from..next]
  }

  lemma {:induction false} SlicesJoin(parts: seq<seq<OriginEvent>>, cursors: seq<int>, log: seq<OriginEvent>)
    requires |cursors| == |parts| + 1 && 0 <= cursors[0] <= |log|
    requires forall i :: 0 <= i < |parts| ==> Slice(parts[i], cursors[i], cursors[i + 1], log)
    ensures 0 <= cursors[0] <= cursors[|parts|] <= |log|
    ensures Joined(parts) == log[cursors[0]..cursors[|parts|]]
  {
    if parts != [] {
      var k := |parts| - 1;
      SlicesJoin(parts[..k], cursors[..k + 1], log);
      assert Slice(parts[k], cursors[k], cursors[k + 1], log);
    }
  }

  /**
    A reader's pages, appended, are the log between the first and the last
    cursor, whatever was imported and appended between the pages.
  */
  lemma {:induction false} PagesAreTheLog(states: seq<Db>, cursors: seq<int>, final: Db)
    requires Reading(states, cursors) && states != [] && forall i :: 0 <= i < |states| ==> states[i].log <= final.log
    ensures 0 <= cursors[0] <= cursors[|states|] <= |final.log|
    ensures Joined(PagesOf(states, cursors)) == final.log[cursors[0]..cursors[|states|]]
  {
    forall i | 0 <= i < |states|
      ensures Slice(EventsRead(states[i], cursors[i]), cursors[i], cursors[i + 1], final.log)
    {
      ReadingBounds(states, cursors, i);
      PageIsSlice(states[i], final, cursors[i], cursors[i + 1]);
    }
    SlicesJoin(PagesOf(states, cursors), cursors, final.log);
  }

  /** What page `i` surfaced when it was read is what its range holds in any later state. */
  lemma {:induction false} SurfacedIsStable(db: Db, later: Db, after: int, through: int, o: NodeId, sequence: int)
    requires Later(db, later) && through <= |db.log|
    ensures Surfaced(db, after, through, o, sequence) <==> Surfaced(later, after, through, o, sequence)
  {
    if i :| 0 <= i < |db.imports| && Announces(db.imports[i], after, through, o, sequence) {
      assert later.imports[i] == db.imports[i];
    }
    if i :| 0 <= i < |later.imports| && Announces(later.imports[i], after, through, o, sequence) {
      assert later.imports[i] == db.imports[i];
    }
  }

  /** The only window that can surface the event. */
  lemma {:induction false} SurfacedByWindow(db: Db, k: nat, after: int, through: int, o: NodeId, sequence: int)
    requires WindowsOk(db) && k < |db.imports| && Covers(db.imports[k], o, sequence)
    ensures Surfaced(db, after, through, o, sequence) <==> after < db.imports[k].witnessSequence <= through
  {
    forall i | 0 <= i < |db.imports| && Covers(db.imports[i], o, sequence)
      ensures i == k
    {
      assert i < k ==> Ordered(db.imports[i], db.imports[k]);
      assert k < i ==> Ordered(db.imports[k], db.imports[i]);
    }
    if after < db.imports[k].witnessSequence <= through {
      assert Announces(db.imports[k], after, through, o, sequence);
    }
  }

  /**
    Pages partition what they span.  Imports and appends may happen between
    pages; an event whose window was announced in the span of all pages has
    been surfaced by exactly one of them.
  */
  lemma {:induction false} SurfacesExactlyOnce(
    states: seq<Db>, cursors: seq<int>, final: Db, o: NodeId, sequence: int)
    returns (page: nat)
    requires Reading(states, cursors) && WindowsOk(final) && (forall i :: 0 <= i < |states| ==> Later(states[i], final))
    requires Surfaced(final, cursors[0], cursors[|states|], o, sequence)
    ensures page < |states|
    ensures Surfaced(states[page], cursors[page], cursors[page + 1], o, sequence)
    ensures forall j :: 0 <= j < |states| && j != page ==> !Surfaced(states[j], cursors[j], cursors[j + 1], o, sequence)
  {
    var k :| 0 <= k < |final.imports| && Announces(final.imports[k], cursors[0], cursors[|states|], o, sequence);
    page := PageOf(cursors, |states|, final.imports[k].witnessSequence);
    forall j | 0 <= j < |states|
      ensures Surfaced(states[j], cursors[j], cursors[j + 1], o, sequence) <==> j == page
    {
      ReadingBounds(states, cursors, j);
      SurfacedIsStable(states[j], final, cursors[j], cursors[j + 1], o, sequence);
      SurfacedByWindow(final, k, cursors[j], cursors[j + 1], o, sequence);
      if j < page {
        CursorsGrow(states, cursors, j + 1, page);
      } else if page < j {
        CursorsGrow(states, cursors, page + 1, j);
      }
    }
  }

  /** Every imported event that is not a witness is announced somewhere in the local log. */
  lemma {:induction false} AllSurface(db: Db, o: NodeId, sequence: int)
    requires WitnessInv(db) && IsSubject(db, o, sequence)
    ensures Surfaced(db, 0, |db.log|, o, sequence)
  {
    assert (o, sequence) in Subjects(db) && Covered(db, o, sequence);
    var k :| 0 <= k < |db.imports| && Covers(db.imports[k], o, sequence);
    assert WindowOk(db, db.imports[k]);
    assert Announces(db.imports[k], 0, |db.log|, o, sequence);
  }

  // ------------------------------------------------------------- readers in a run

  /** The moments of a run at which a reader at node `n` fetches a page. */
  ghost predicate Visits(nets: seq<seq<Db>>, steps: seq<Step>, n: nat, at: seq<nat>, cursors: seq<int>)
  {
    && IsRun(nets, steps) && Initial(nets[0]) && n < |nets[0]|
    && at != [] && |cursors| == |at| + 1 && cursors[0] == 0
    && (forall i, j :: 0 <= i < j < |at| ==> at[i] <= at[j])
    && (forall i :: 0 <= i < |at| ==> VisitAt(nets, n, at, cursors, i))
  }

  predicate VisitAt(nets: seq<seq<Db>>, n: nat, at: seq<nat>, cursors: seq<int>, i: int)
    requires 0 <= i < |at| && |cursors| == |at| + 1
  {
    at[i] < |nets| && n < |nets[at[i]]| && PageRead(nets[at[i]][n], cursors[i], cursors[i + 1])
  }

  /** What the reader's node looked like at each visit. */
  function Seen(nets: seq<seq<Db>>, n: nat, at: seq<nat>): (states: seq<Db>)
    requires forall i :: 0 <= i < |at| ==> at[i] < |nets| && n < |nets[at[i]]|
    ensures |states| == |at| && forall i :: 0 <= i < |at| ==> states[i] == nets[at[i]][n]
  {
    seq(|at|, i requires 0 <= i < |at| => nets[at[i]][n])
  }

  lemma {:induction false} VisitsSee(nets: seq<seq<Db>>, steps: seq<Step>, n: nat, at: seq<nat>, cursors: seq<int>)
    requires Visits(nets, steps, n, at, cursors)
    ensures forall i :: 0 <= i < |at| ==> at[i] < |nets| && n < |nets[at[i]]|
  {
    forall i | 0 <= i < |at|
      ensures at[i] < |nets| && n < |nets[at[i]]|
    {
      assert VisitAt(nets, n, at, cursors, i);
    }
  }

  lemma {:induction false} MomentOk(nets: seq<seq<Db>>, steps: seq<Step>, n: nat, k: nat)
    requires IsRun(nets, steps) && Initial(nets[0]) && n < |nets[0]| && k <= |steps|
    ensures |nets[k]| == |nets[0]| && Inv(nets[k][n]) && WitnessInv(nets[k][n])
  {
    InitialOk(nets[0]);
    RunKeepsNet(nets, steps, k);
    assert NodeOk(nets[k], n);
    EmptyWitnessInv(nets[0], n);
    RunKeepsWitnessInv(nets, steps, 0, k, n);
  }

  lemma {:induction false} MomentsLater(nets: seq<seq<Db>>, steps: seq<Step>, n: nat, i: nat, j: nat)
    requires IsRun(nets, steps) && Initial(nets[0]) && n < |nets[0]| && i <= j <= |steps|
    ensures |nets[i]| == |nets[j]| == |nets[0]| && Later(nets[i][n], nets[j][n])
  {
    MomentOk(nets, steps, n, i);
    InitialOk(nets[0]);
    assert WitnessAt(nets[i], n);
    RunKeepsWitnessInv(nets, steps, i, j, n);
    assert LaterAt(nets[i], nets[j], n);
  }

  lemma {:induction false} RunIsReading(nets: seq<seq<Db>>, steps: seq<Step>, n: nat, at: seq<nat>, cursors: seq<int>)
    requires Visits(nets, steps, n, at, cursors)
    ensures forall i :: 0 <= i < |at| ==> at[i] < |nets| && n < |nets[at[i]]|
    ensures Reading(Seen(nets, n, at), cursors)
  {
    VisitsSee(nets, steps, n, at, cursors);
    var states := Seen(nets, n, at);
    forall i | 0 <= i < |at|
      ensures Inv(states[i]) && PageRead(states[i], cursors[i], cursors[i + 1])
    {
      assert VisitAt(nets, n, at, cursors, i);
      MomentOk(nets, steps, n, at[i]);
    }
    forall i, j | 0 <= i < j < |at|
      ensures Later(states[i], states[j])
    {
      MomentsLater(nets, steps, n, at[i], at[j]);
    }
  }

  /** Over every run, a reader who starts at zero has read each event up to its cursor once and in order. */
  lemma {:induction false} ReaderReadsTheLog(
    nets: seq<seq<Db>>, steps: seq<Step>, n: nat, at: seq<nat>, cursors: seq<int>)
    requires Visits(nets, steps, n, at, cursors)
    requires forall i :: 0 <= i < |at| ==> at[i] < |nets| && n < |nets[at[i]]|
    ensures var final := Seen(nets, n, at)[|at| - 1];
      && 0 <= cursors[|at|] <= |final.log|
      && Joined(PagesOf(Seen(nets, n, at), cursors)) == final.log[..cursors[|at|]]
  {
    var states := Seen(nets, n, at);
    RunIsReading(nets, steps, n, at, cursors);
    var last := at[|at| - 1];
    forall i | 0 <= i < |at|
      ensures states[i].log <= nets[last][n].log
    {
      MomentsLater(nets, steps, n, at[i], last);
    }
    PagesAreTheLog(states, cursors, nets[last][n]);
  }

  /**
    Each imported change surfaces exactly once, over every run of the network
    and every reader who starts at zero: when its last page reaches the head,
    every imported event that is not a witness has been surfaced by exactly one
    of its pages.
  */
  lemma {:induction false} ReaderSeesOnce(
    nets: seq<seq<Db>>, steps: seq<Step>, n: nat, at: seq<nat>, cursors: seq<int>, o: NodeId, sequence: int)
    returns (page: nat)
    requires Visits(nets, steps, n, at, cursors)
    requires forall i :: 0 <= i < |at| ==> at[i] < |nets| && n < |nets[at[i]]|
    requires var final := Seen(nets, n, at)[|at| - 1]; cursors[|at|] == |final.log| && IsSubject(final, o, sequence)
    ensures page < |at|
    ensures var states := Seen(nets, n, at);
      forall j :: 0 <= j < |at| ==> (Surfaced(states[j], cursors[j], cursors[j + 1], o, sequence) <==> j == page)
  {
    var states := Seen(nets, n, at);
    RunIsReading(nets, steps, n, at, cursors);
    var last := at[|at| - 1];
    var final := nets[last][n];
    MomentOk(nets, steps, n, last);
    AllSurface(final, o, sequence);
    forall i | 0 <= i < |at|
      ensures Later(states[i], final)
    {
      MomentsLater(nets, steps, n, at[i], last);
    }
    page := SurfacesExactlyOnce(states, cursors, final, o, sequence);
  }

  /** A row stays a row while the retained log grows. */
  lemma {:induction false} RowIsStable(db: Db, later: Db, p: Projection, o: NodeId, story: int, sequence: int)
    requires RowsGrow(db, later) && o in db.replicas && sequence <= |db.replicas[o].events|
    ensures StoryRow(db, p, o, story, sequence) <==> StoryRow(later, p, o, story, sequence)
  {
    assert RowsGrowAt(db, later, o);
    if 1 <= sequence {
      assert later.replicas[o].events[..sequence] == db.replicas[o].events[..sequence];
    }
  }

  /**
    So a change to a story is reported by that page, exactly if the story is
    still unmerged when the page is read.
  */
  lemma {:induction false} ChangeIsReported(
    states: seq<Db>, cursors: seq<int>, final: Db, p: Projection, o: NodeId, story: int, sequence: int)
    returns (page: nat)
    requires Reading(states, cursors) && WindowsOk(final) && (forall i :: 0 <= i < |states| ==> Later(states[i], final))
    requires forall i :: 0 <= i < |states| ==> WindowsOk(states[i])
    requires Surfaced(final, cursors[0], cursors[|states|], o, sequence) && StoryRow(final, p, o, story, sequence)
    ensures page < |states| && o in states[page].replicas
    ensures forall j :: 0 <= j < |states| ==>
      (Surfaced(states[j], cursors[j], cursors[j + 1], o, sequence) <==> j == page)
    ensures IsChanged(states[page], p, cursors[page], cursors[page + 1], o, story) <==>
      story in p.live(states[page].replicas[o].events)
  {
    page := SurfacesExactlyOnce(states, cursors, final, o, sequence);
    var db := states[page];
    var k :| 0 <= k < |db.imports| && Announces(db.imports[k], cursors[page], cursors[page + 1], o, sequence);
    assert WindowOk(db, db.imports[k]) && ReplicaOk(o, db.replicas[o]);
    RowIsStable(db, final, p, o, story, sequence);
  }

  /** An event retained in the window touched the story, and the window's witness lies in (after, through]. */
  predicate TouchedIn(db: Db, w: Window, p: Projection, after: int, through: int, o: NodeId, story: int, sequence: int)
  {
    && w.origin == o && w.from < sequence <= w.through
    && after < w.witnessSequence <= through
    && o in db.replicas && 0 < sequence <= |db.replicas[o].events|
    && story in p.touches(db.replicas[o].events[..sequence])
  }

  ghost predicate Touched(db: Db, p: Projection, after: int, through: int, o: NodeId, story: int)
  {
    exists i, sequence :: 0 <= i < |db.imports| && TouchedIn(db, db.imports[i], p, after, through, o, story, sequence)
  }

  /**
    A page reports nothing else: whatever is imported later, its stories are
    the ones live when it was read that an event of its own windows touched.
  */
  lemma {:induction false} ReportIsExact(
    db: Db, final: Db, p: Projection, after: int, through: int, o: NodeId, story: int)
    requires Inv(db) && WindowsOk(db) && Later(db, final) && through <= |db.log|
    ensures IsChanged(db, p, after, through, o, story) <==>
      o in db.replicas && story in p.live(db.replicas[o].events) && Touched(final, p, after, through, o, story)
  {
    if IsChanged(db, p, after, through, o, story) {
      var sequence :| StoryRow(db, p, o, story, sequence) && Surfaced(db, after, through, o, sequence);
      RowIsStable(db, final, p, o, story, sequence);
      var i :| 0 <= i < |db.imports| && Announces(db.imports[i], after, through, o, sequence);
      assert final.imports[i] == db.imports[i];
      assert TouchedIn(final, final.imports[i], p, after, through, o, story, sequence);
    }
    if o in db.replicas && Touched(final, p, after, through, o, story) {
      var i, sequence :| 0 <= i < |final.imports| &&
        TouchedIn(final, final.imports[i], p, after, through, o, story, sequence);
      assert i < |db.imports| && final.imports[i] == db.imports[i];
      assert WindowOk(db, db.imports[i]) && ReplicaOk(o, db.replicas[o]);
      RowIsStable(db, final, p, o, story, sequence);
      assert Announces(db.imports[i], after, through, o, sequence);
      assert StoryRow(db, p, o, story, sequence) && Surfaced(db, after, through, o, sequence);
    }
  }

  /** What `ChangeIsReported` says, over every run and reader. */
  lemma {:induction false} EveryChangeIsReported(
    nets: seq<seq<Db>>, steps: seq<Step>, n: nat, at: seq<nat>, cursors: seq<int>, p: Projection, o: NodeId,
    story: int, sequence: int)
    returns (page: nat)
    requires Visits(nets, steps, n, at, cursors)
    requires forall i :: 0 <= i < |at| ==> at[i] < |nets| && n < |nets[at[i]]|
    requires var final := Seen(nets, n, at)[|at| - 1];
      cursors[|at|] == |final.log| && IsSubject(final, o, sequence) && StoryRow(final, p, o, story, sequence)
    ensures page < |at|
    ensures var states := Seen(nets, n, at);
      forall j :: 0 <= j < |at| ==> (Surfaced(states[j], cursors[j], cursors[j + 1], o, sequence) <==> j == page)
    ensures var db := Seen(nets, n, at)[page];
      && o in db.replicas
      && (IsChanged(db, p, cursors[page], cursors[page + 1], o, story) <==> story in p.live(db.replicas[o].events))
  {
    var states := Seen(nets, n, at);
    RunIsReading(nets, steps, n, at, cursors);
    var last := at[|at| - 1];
    var final := nets[last][n];
    MomentOk(nets, steps, n, last);
    AllSurface(final, o, sequence);
    forall i | 0 <= i < |at|
      ensures Later(states[i], final) && WindowsOk(states[i])
    {
      MomentsLater(nets, steps, n, at[i], last);
      MomentOk(nets, steps, n, at[i]);
    }
    page := ChangeIsReported(states, cursors, final, p, o, story, sequence);
  }
}
