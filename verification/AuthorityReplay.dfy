/**
  The importer's second derivation of authority agrees with the origin's first:
  over every run of requests, replaying the log rebuilds the same tables.
*/
module AuthorityReplay {
  import opened Common
  import opened Authority

  // -------------------------------------------------------------- invariants

  /** One lineage's keys: numbered versions whose validity intervals tile, the last one open and current. */
  ghost predicate Tiles(rows: seq<KeyRow>, current: Key, head: int)
  {
    && rows != []
    && (forall i :: 0 <= i < |rows| ==> rows[i].version == i && 0 < rows[i].validFrom <= head)
    && (forall i, j :: 0 <= i < j < |rows| ==> rows[i].validFrom < rows[j].validFrom)
    && (forall i, j :: 0 <= i && j == i + 1 && j < |rows| ==> rows[i].validTo == Some(rows[j].validFrom))
    && rows[|rows| - 1].validTo.None?
    && rows[|rows| - 1].publicKey == current
  }

  predicate NeverReused(keys: map<LineageId, seq<KeyRow>>)
  {
    forall l, i, m, j | l in keys && m in keys && 0 <= i < |keys[l]| && 0 <= j < |keys[m]| ::
      keys[l][i].publicKey == keys[m][j].publicKey ==> l == m && i == j
  }

  predicate DelegationOk(s: Origin, row: DelegationRow)
  {
    && row.lineage in s.lineages
    && 0 < row.registered <= |s.log|
    && (row.revoked.Some? ==> row.registered < row.revoked.value <= |s.log|)
  }

  predicate AckOk(s: Origin, l: LineageId)
  {
    var ack := LastAck(s.log, l);
    && (l in s.acks <==> ack.Some?)
    && (l in s.acks ==> s.acks[l] == Effective(ack.value) && 0 <= s.acks[l] <= |s.log|)
  }

  ghost predicate AllTile(keys: map<LineageId, seq<KeyRow>>, lineages: map<LineageId, Key>, head: int)
  {
    && keys.Keys == lineages.Keys
    && forall l :: l in keys ==> Tiles(keys[l], lineages[l], head)
  }

  ghost predicate KeysOk(s: Origin)
  {
    AllTile(s.keys, s.lineages, |s.log|)
  }

  ghost predicate DelegationsOk(s: Origin)
  {
    forall d :: d in s.delegations ==> DelegationOk(s, s.delegations[d])
  }

  ghost predicate AcksOk(s: Origin)
  {
    forall l :: AckOk(s, l)
  }

  ghost predicate OriginInv(s: Origin)
  {
    KeysOk(s) && NeverReused(s.keys) && DelegationsOk(s) && AcksOk(s)
  }

  /** The two sides hold the same log, current keys, key versions, key histories and delegations. */
  ghost predicate Agrees(s: Origin, r: Importer)
  {
    && r.log == s.log
    && r.keys == s.keys
    && r.delegations == s.delegations
    && r.lineages.Keys == s.lineages.Keys
    && (forall l :: l in s.lineages && l in s.keys ==>
      r.lineages[l] == FederatedLineage(s.lineages[l], |s.keys[l]| - 1))
  }

  lemma {:induction false} TilesMaxVersion(rows: seq<KeyRow>)
    requires forall i :: 0 <= i < |rows| ==> rows[i].version == i
    ensures MaxVersion(rows) == |rows| - 1
  {
    if rows != [] {
      TilesMaxVersion(rows[..|rows| - 1]);
    }
  }

  // ------------------------------------------------- the origin's invariant

  lemma {:induction false} KeyAdded(keys: map<LineageId, seq<KeyRow>>, l: LineageId, rows: seq<KeyRow>, row: KeyRow)
    requires NeverReused(keys) && !KeyUsed(keys, row.publicKey)
    requires |rows| == |RowsOf(keys, l)|
    requires forall i :: 0 <= i < |rows| ==> rows[i].publicKey == RowsOf(keys, l)[i].publicKey
    ensures NeverReused(keys[l := rows + [row]])
  {
    var keys': map<LineageId, seq<KeyRow>> := keys[l := rows + [row]];
    forall a, i, b, j | a in keys' && b in keys' && 0 <= i < |keys'[a]| && 0 <= j < |keys'[b]| &&
      keys'[a][i].publicKey == keys'[b][j].publicKey
      ensures a == b && i == j
    {
      var oldA, oldB := a != l || i < |rows|, b != l || j < |rows|;
      assert oldA ==> a in keys && i < |keys[a]| && keys'[a][i].publicKey == keys[a][i].publicKey;
      assert oldB ==> b in keys && j < |keys[b]| && keys'[b][j].publicKey == keys[b][j].publicKey;
    }
  }

  lemma {:induction false} RotationTiles(rows: seq<KeyRow>, current: Key, next: Key, head: int)
    requires Tiles(rows, current, head)
    ensures Tiles(Rotated(rows, next, head + 1), next, head + 1)
  {
    TilesMaxVersion(rows);
  }

  lemma {:induction false} LastAckAppend(log: seq<Event>, e: Event, l: LineageId)
    ensures LastAck(log + [e], l) ==
      if e.item.Acknowledgement? && e.lineage == Some(l) then Some((|log| + 1, e.item.cursor)) else LastAck(log, l)
  {
    assert (log + [e])[..|log|] == log;
  }

  lemma {:induction false} AcksKept(s: Origin, x: Object, now: Time, t: Time)
    requires AcksOk(s) && Accepts(s, x, now)
    ensures AcksOk(Updated(s, x, t))
  {
    var s' := Updated(s, x, t);
    forall l
      ensures AckOk(s', l)
    {
      assert AckOk(s, l);
      LastAckAppend(s.log, EventFor(s, x, t), l);
    }
  }

  lemma {:induction false} TilesLater(rows: seq<KeyRow>, current: Key, head: int)
    requires Tiles(rows, current, head)
    ensures Tiles(rows, current, head + 1)
  {
  }

  lemma {:induction false} TilesAll(keys: map<LineageId, seq<KeyRow>>, lineages: map<LineageId, Key>, head: int)
    requires AllTile(keys, lineages, head)
    ensures AllTile(keys, lineages, head + 1)
  {
    forall l | l in keys
      ensures Tiles(keys[l], lineages[l], head + 1)
    {
      TilesLater(keys[l], lineages[l], head);
    }
  }

  /** Replacing one lineage's rows by rows that tile keeps the rest. */
  lemma {:induction false} TilesReplaced(
    keys: map<LineageId, seq<KeyRow>>, lineages: map<LineageId, Key>, head: int, l: LineageId, rows: seq<KeyRow>,
    k: Key)
    requires AllTile(keys, lineages, head) && Tiles(rows, k, head)
    ensures AllTile(keys[l := rows], lineages[l := k], head)
  {
  }

  lemma {:induction false} RotationKeepsKeys(
    keys: map<LineageId, seq<KeyRow>>, lineages: map<LineageId, Key>, head: int, l: LineageId, next: Key)
    requires AllTile(keys, lineages, head) && l in keys
    ensures AllTile(keys[l := Rotated(RowsOf(keys, l), next, head + 1)], lineages[l := next], head + 1)
  {
    RotationTiles(keys[l], lineages[l], next, head);
    TilesAll(keys, lineages, head);
    TilesReplaced(keys, lineages, head + 1, l, Rotated(keys[l], next, head + 1), next);
  }

  lemma {:induction false} RegistrationKeepsKeys(
    keys: map<LineageId, seq<KeyRow>>, lineages: map<LineageId, Key>, head: nat, l: LineageId, k: Key)
    requires AllTile(keys, lineages, head) && l !in keys
    ensures AllTile(keys[l := RowsOf(keys, l) + [KeyRow(0, k, head + 1, None)]], lineages[l := k], head + 1)
  {
    var rows := [KeyRow(0, k, head + 1, None)];
    assert RowsOf(keys, l) + rows == rows;
    TilesAll(keys, lineages, head);
    TilesReplaced(keys, lineages, head + 1, l, rows, k);
  }

  lemma {:induction false} RegistrationKept(s: Origin, x: Object, t: Time)
    requires KeysOk(s) && x.Registration? && LineageIdOf(x.publicKey) !in s.lineages
    ensures KeysOk(Updated(s, x, t))
  {
    RegistrationKeepsKeys(s.keys, s.lineages, |s.log|, LineageIdOf(x.publicKey), x.publicKey);
  }

  lemma {:induction false} RotationKept(s: Origin, x: Object, t: Time)
    requires KeysOk(s) && x.Rotation? && x.lineage in s.lineages
    ensures KeysOk(Updated(s, x, t))
  {
    RotationKeepsKeys(s.keys, s.lineages, |s.log|, x.lineage, x.newKey);
  }

  lemma {:induction false} OthersKept(s: Origin, x: Object, t: Time)
    requires KeysOk(s) && !x.Registration? && !x.Rotation?
    requires x.Revocation? || x.Acknowledgement? ==> x.delegation in s.delegations
    ensures KeysOk(Updated(s, x, t))
  {
    TilesAll(s.keys, s.lineages, |s.log|);
  }

  lemma {:induction false} KeysKept(s: Origin, x: Object, now: Time, t: Time)
    requires KeysOk(s) && Accepts(s, x, now)
    ensures KeysOk(Updated(s, x, t))
  {
    if x.Registration? {
      RegistrationKept(s, x, t);
    } else if x.Rotation? {
      RotationKept(s, x, t);
    } else {
      OthersKept(s, x, t);
    }
  }

  lemma {:induction false} KeysStayDistinct(s: Origin, x: Object, now: Time, t: Time)
    requires NeverReused(s.keys) && Accepts(s, x, now) && s.keys.Keys == s.lineages.Keys
    ensures NeverReused(Updated(s, x, t).keys)
  {
    var n := |s.log| + 1;
    match x
    case Registration(_, k, _, _, _) =>
      KeyAdded(s.keys, LineageIdOf(k), RowsOf(s.keys, LineageIdOf(k)), KeyRow(0, k, n, None));
    case Rotation(_, l, _, next, _, _, _, _, _) =>
      var rows := RowsOf(s.keys, l);
      KeyAdded(s.keys, l, CloseRows(rows, n), KeyRow(MaxVersion(rows) + 1, next, n, None));
    case _ =>
  }

  lemma {:induction false} DelegationsKept(s: Origin, x: Object, now: Time, t: Time)
    requires DelegationsOk(s) && Accepts(s, x, now)
    ensures DelegationsOk(Updated(s, x, t))
  {
    var s' := Updated(s, x, t);
    forall d | d in s'.delegations
      ensures DelegationOk(s', s'.delegations[d])
    {
      assert d in s.delegations ==> DelegationOk(s, s.delegations[d]);
    }
  }

  lemma {:induction false} SubmitKeepsInv(s: Origin, q: Request)
    requires OriginInv(s)
    ensures OriginInv(Submit(s, q))
  {
    if Succeeds(s, q) {
      AcksKept(s, q.item, q.authorizedAt, q.receivedAt);
      KeysKept(s, q.item, q.authorizedAt, q.receivedAt);
      KeysStayDistinct(s, q.item, q.authorizedAt, q.receivedAt);
      DelegationsKept(s, q.item, q.authorizedAt, q.receivedAt);
    }
  }

  // ------------------------------------------------------------ bisimulation

  /**
    The delegation was still good at the clock reading that authorised the
    object, but had run out, skew included, at the one that stamped it.
  */
  predicate Straddles(s: Origin, q: Request)
  {
    && (q.item.Acknowledgement? || q.item.Contribution?)
    && q.item.delegation in s.delegations
    && q.receivedAt > s.delegations[q.item.delegation].expiresAt + SKEW
  }

  lemma {:induction false} NotCurrent(s: Origin, r: Importer, k: Key)
    requires Agrees(s, r) && s.keys.Keys == s.lineages.Keys && k !in s.lineages.Values
    ensures !CurrentKey(r, k)
  {
    forall l | l in r.lineages
      ensures r.lineages[l].currentKey != k
    {
      assert s.lineages[l] in s.lineages.Values;
    }
  }

  /** What the origin accepted, the importer admits, unless it straddles the expiry. */
  lemma {:induction false} Admitted(s: Origin, r: Importer, q: Request)
    requires KeysOk(s) && AcksOk(s) && Agrees(s, r)
    requires Accepts(s, q.item, q.authorizedAt) && q.authorizedAt <= q.receivedAt
    ensures Admits(r, EventFor(s, q.item, q.receivedAt)) <==> !Straddles(s, q)
  {
    match q.item
    case Registration(_, k, _, _, _) =>
      NotCurrent(s, r, k);
    case Acknowledgement(_, d, _, _, _, _) => assert AckOk(s, s.delegations[d].lineage);
    case _ =>
  }

  lemma {:induction false} RotationAgrees(s: Origin, r: Importer, x: Object, t: Time)
    requires KeysOk(s) && Agrees(s, r) && x.Rotation? && x.lineage in s.lineages
    ensures Agrees(Updated(s, x, t), Projected(r, EventFor(s, x, t)))
  {
    TilesMaxVersion(s.keys[x.lineage]);
  }

  lemma {:induction false} ProjectedAgrees(s: Origin, r: Importer, x: Object, t: Time)
    requires KeysOk(s) && Agrees(s, r)
    requires x.Registration? ==> LineageIdOf(x.publicKey) !in s.lineages
    requires x.Rotation? ==> x.lineage in s.lineages
    requires x.Revocation? || x.Acknowledgement? ==> x.delegation in s.delegations
    ensures Agrees(Updated(s, x, t), Projected(r, EventFor(s, x, t)))
  {
    if x.Rotation? {
      RotationAgrees(s, r, x, t);
    }
  }

  lemma {:induction false} StepBisimulates(s: Origin, r: Importer, q: Request)
    requires OriginInv(s) && Agrees(s, r) && Succeeds(s, q)
    requires q.authorizedAt <= q.receivedAt
    ensures var r' := Replay(r, EventFor(s, q.item, q.receivedAt));
      && (r'.Some? <==> !Straddles(s, q))
      && (r'.Some? ==> Agrees(Submit(s, q), r'.value))
  {
    Admitted(s, r, q);
    if !Straddles(s, q) {
      ProjectedAgrees(s, r, q.item, q.receivedAt);
    }
  }

  /** The origin's state after a run of requests. */
  function Serve(qs: seq<Request>): Origin
  {
    if qs == [] then EMPTY_ORIGIN else Submit(Serve(qs[..|qs| - 1]), qs[|qs| - 1])
  }

  ghost predicate NeverStraddles(qs: seq<Request>)
  {
    qs != [] ==>
      && NeverStraddles(qs[..|qs| - 1])
      && (Succeeds(Serve(qs[..|qs| - 1]), qs[|qs| - 1]) ==> !Straddles(Serve(qs[..|qs| - 1]), qs[|qs| - 1]))
  }

  lemma {:induction false} ServeKeepsInv(qs: seq<Request>)
    ensures OriginInv(Serve(qs))
  {
    if qs != [] {
      ServeKeepsInv(qs[..|qs| - 1]);
      SubmitKeepsInv(Serve(qs[..|qs| - 1]), qs[|qs| - 1]);
    }
  }

  /**
    Replaying the log of any run accepts every event and ends with the origin's
    own keys, versions, validity intervals, delegations and revocations, exactly
    if no accepted object straddled its delegation's expiry between the two
    clock readings of its request.
  */
  lemma {:induction false} ReplayBisimulates(qs: seq<Request>)
    requires forall k :: 0 <= k < |qs| ==> qs[k].authorizedAt <= qs[k].receivedAt
    ensures OriginInv(Serve(qs))
    ensures var r := ReplayAll(EMPTY_IMPORTER, Serve(qs).log);
      && (r.Some? <==> NeverStraddles(qs))
      && (r.Some? ==> Agrees(Serve(qs), r.value))
  {
    ServeKeepsInv(qs);
    if qs != [] {
      var front, q := qs[..|qs| - 1], qs[|qs| - 1];
      ReplayBisimulates(front);
      var s := Serve(front);
      if Succeeds(s, q) {
        ReplayNext(s.log, EventFor(s, q.item, q.receivedAt));
        var r := ReplayAll(EMPTY_IMPORTER, s.log);
        if r.Some? {
          StepBisimulates(s, r.value, q);
        }
      }
    }
  }

  lemma {:induction false} ReplayNext(log: seq<Event>, e: Event)
    ensures var r := ReplayAll(EMPTY_IMPORTER, log);
      ReplayAll(EMPTY_IMPORTER, log + [e]) == if r.None? then None else Replay(r.value, e)
  {
    assert (log + [e])[..|log|] == log;
  }

  /** With one clock reading per request nothing straddles, so every log replays. */
  lemma {:induction false} OneClockReplays(qs: seq<Request>)
    requires forall k :: 0 <= k < |qs| ==> qs[k].authorizedAt == qs[k].receivedAt
    ensures NeverStraddles(qs)
    ensures ReplayAll(EMPTY_IMPORTER, Serve(qs).log).Some?
    ensures Agrees(Serve(qs), ReplayAll(EMPTY_IMPORTER, Serve(qs).log).value)
  {
    if qs != [] {
      OneClockReplays(qs[..|qs| - 1]);
    }
    ReplayBisimulates(qs);
  }

  /** Register a lineage, delegate to session key 2 until time 1000, and contribute at the very end of its grace. */
  function LastMinute(nonce: string): seq<Request>
  {
    var terms := Terms(LineageIdOf(1), 2, ["post"], 0, 1000, nonce);
    var last := 1000 + SKEW;
    [Request(Registration(true, 1, 0, nonce, Some(1)), 0, 0),
     Request(Delegation(true, terms, Some(1)), 0, 0),
     Request(Contribution(true, DelegationIdOf(terms), "post", 0, nonce, 0, Some(2)), last, last + 1)]
  }

  /**
    A contribution authorised at the last good millisecond and stamped one
    later: accepted, but its log no longer imports.
  */
  lemma {:induction false} StraddlingLogIsRefused(nonce: string)
    ensures var log := Serve(LastMinute(nonce)).log; |log| == 3 && ReplayAll(EMPTY_IMPORTER, log).None?
  {
    var qs := LastMinute(nonce);
    var q1, q2, q3 := qs[0], qs[1], qs[2];
    assert [q1][..0] == [] && [q1, q2][..1] == [q1] && qs[..2] == [q1, q2];
    var s1 := Submit(EMPTY_ORIGIN, q1);
    assert Serve([q1]) == s1;
    FirstLineage(q1);
    var s2 := Submit(s1, q2);
    assert Serve([q1, q2]) == s2;
    assert Succeeds(s1, q2);
    assert "post" in s2.delegations[DelegationIdOf(q2.item.terms)].scopes;
    assert Succeeds(s2, q3) && Straddles(s2, q3);
    ReplayBisimulates(qs);
  }

  lemma {:induction false} FirstLineage(q: Request)
    requires q.item.Registration? && Accepts(EMPTY_ORIGIN, q.item, q.authorizedAt)
    ensures var s := Submit(EMPTY_ORIGIN, q);
      && s.log == [EventFor(EMPTY_ORIGIN, q.item, q.receivedAt)]
      && s.lineages == map[LineageIdOf(q.item.publicKey) := q.item.publicKey]
      && s.delegations == map[] && s.nonces == {}
  {
    assert Succeeds(EMPTY_ORIGIN, q);
  }

  // ------------------------------------------------- imports from any origin

  function CurrentKeys(r: Importer): map<LineageId, Key>
  {
    map l | l in r.lineages :: r.lineages[l].currentKey
  }

  /** An origin that holds the importer's tables and remembers no nonces and no acknowledgements. */
  function AsOrigin(r: Importer): Origin
  {
    Origin(r.log, CurrentKeys(r), r.keys, r.delegations, {}, map[])
  }

  /** The origin's key and delegation invariants, held by an importer. */
  ghost predicate ImporterInv(r: Importer)
  {
    var s := AsOrigin(r);
    KeysOk(s) && NeverReused(s.keys) && DelegationsOk(s) && Agrees(s, r)
  }

  /** Nothing gets into an importer's tables that an origin with those tables would refuse. */
  lemma {:induction false} AdmitsMeansAccepts(r: Importer, e: Event)
    requires Admits(r, e)
    ensures Accepts(AsOrigin(r), e.item, e.receivedAt)
    ensures e == EventFor(AsOrigin(r), e.item, e.receivedAt)
  {
    assert e.item.Registration? ==> (e.item.publicKey in CurrentKeys(r).Values <==> CurrentKey(r, e.item.publicKey));
  }

  lemma {:induction false} SameTables(s: Origin, r: Importer)
    requires Agrees(s, r) && KeysOk(s) && NeverReused(s.keys) && DelegationsOk(s)
    ensures ImporterInv(r)
  {
    assert CurrentKeys(r) == s.lineages;
    forall d | d in r.delegations
      ensures DelegationOk(AsOrigin(r), r.delegations[d])
    {
      assert DelegationOk(s, s.delegations[d]);
    }
  }

  lemma {:induction false} ReplayKeepsInv(r: Importer, e: Event)
    requires ImporterInv(r) && Admits(r, e)
    ensures ImporterInv(Projected(r, e))
  {
    var s, x, t := AsOrigin(r), e.item, e.receivedAt;
    AdmitsMeansAccepts(r, e);
    KeysKept(s, x, t, t);
    KeysStayDistinct(s, x, t, t);
    DelegationsKept(s, x, t, t);
    ProjectedAgrees(s, r, x, t);
    SameTables(Updated(s, x, t), Projected(r, e));
  }

  /**
    Whoever wrote the log, honest or not: if it imports, keys are numbered,
    tile, and are never reused, the last one is current, and every delegation
    belongs to a lineage registered before it.
  */
  lemma {:induction false} AnyImportIsSound(r: Importer, log: seq<Event>)
    requires ImporterInv(r) && ReplayAll(r, log).Some?
    ensures ImporterInv(ReplayAll(r, log).value)
  {
    if log != [] {
      AnyImportIsSound(r, log[..|log| - 1]);
      ReplayKeepsInv(ReplayAll(r, log[..|log| - 1]).value, log[|log| - 1]);
    }
  }

  lemma {:induction false} ReplayConcat(r: Importer, a: seq<Event>, b: seq<Event>)
    ensures ReplayAll(r, a + b) ==
      if ReplayAll(r, a).None? then None else ReplayAll(ReplayAll(r, a).value, b)
  {
    if b == [] {
      assert a + b == a;
    } else {
      ReplayConcat(r, a, b[..|b| - 1]);
      assert (a + b)[..|a + b| - 1] == a + b[..|b| - 1];
    }
  }

  // --------------------------------------------------------- acknowledgements

  /** Event `n` was named by one of the lineage's acknowledgements, or is one of them. */
  ghost predicate Consumed(log: seq<Event>, l: LineageId, n: int)
  {
    exists i :: 0 <= i < |log| && IsAck(log[i], l) && (n <= log[i].item.cursor || n == i + 1)
  }

  predicate IsAck(e: Event, l: LineageId)
  {
    e.item.Acknowledgement? && e.lineage == Some(l)
  }

  lemma {:induction false} LastAckIsThere(log: seq<Event>, l: LineageId)
    requires LastAck(log, l).Some?
    ensures var (n, cursor) := LastAck(log, l).value;
      0 < n <= |log| && IsAck(log[n - 1], l) && log[n - 1].item.cursor == cursor
  {
    var e := log[|log| - 1];
    if !IsAck(e, l) {
      LastAckIsThere(log[..|log| - 1], l);
    }
  }

  lemma {:induction false} CursorStep(s: Origin, q: Request, l: LineageId)
    requires AckOk(s, l)
    ensures AckedCursor(s, l) <= AckedCursor(Submit(s, q), l)
  {
  }

  lemma {:induction false} CursorsNeverMoveBack(qs: seq<Request>, k: nat, l: LineageId)
    requires k <= |qs|
    ensures AckedCursor(Serve(qs[..k]), l) <= AckedCursor(Serve(qs), l)
    decreases |qs|
  {
    if k == |qs| {
      assert qs[..k] == qs;
    } else {
      var front := qs[..|qs| - 1];
      CursorsNeverMoveBack(front, k, l);
      assert front[..k] == qs[..k];
      ServeKeepsInv(front);
      CursorStep(Serve(front), qs[|qs| - 1], l);
    }
  }

  /**
    Over every run a lineage's cursor never moves back or past the head, skips
    no event that was neither named by one of its acknowledgements nor one of
    them, and is what an importer computes from the last of them.
  */
  lemma {:induction false} AcknowledgementSafety(qs: seq<Request>, k: nat, l: LineageId, n: int)
    requires k <= |qs|
    ensures AckedCursor(Serve(qs[..k]), l) <= AckedCursor(Serve(qs), l) <= |Serve(qs).log|
    ensures 1 <= n <= AckedCursor(Serve(qs), l) ==> Consumed(Serve(qs).log, l, n)
    ensures var ack := LastAck(Serve(qs).log, l);
      && (ack.None? ==> AckedCursor(Serve(qs), l) == 0)
      && (ack.Some? ==>
        var (sequence, named) := ack.value;
        AckedCursor(Serve(qs), l) == if named + 1 == sequence then sequence else named)
  {
    CursorsNeverMoveBack(qs, k, l);
    ServeKeepsInv(qs);
    var s := Serve(qs);
    assert AckOk(s, l);
    if l in s.acks && 1 <= n <= s.acks[l] {
      LastAckIsThere(s.log, l);
      var (i, cursor) := LastAck(s.log, l).value;
      assert IsAck(s.log[i - 1], l) && (n <= cursor || n == i);
    }
  }
}
