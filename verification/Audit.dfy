/**
  What a log of authority events says by itself.  The tables of Authority are
  kept up to date event by event; here every question they answer (which key
  signs for a lineage, which delegations stand, who may still write) is asked
  of the log directly, by position.  Origin and importer are then shown to
  decide exactly by the log, with every limit written out.
*/
module Audit {
  import opened Common
  import opened Authority
  import opened AuthorityReplay

  // ----------------------------------------------- reading the log by position

  /** The event makes `k` the key of lineage `l`. */
  predicate SetsKey(e: Event, l: LineageId, k: Key)
  {
    || (e.item.Registration? && e.item.publicKey == l.key && e.item.publicKey == k)
    || (e.item.Rotation? && e.item.lineage == l && e.item.newKey == k)
  }

  predicate Rekeys(e: Event, l: LineageId)
  {
    (e.item.Registration? && e.item.publicKey == l.key) || (e.item.Rotation? && e.item.lineage == l)
  }

  predicate Introduces(e: Event, k: Key)
  {
    (e.item.Registration? && e.item.publicKey == k) || (e.item.Rotation? && e.item.newKey == k)
  }

  ghost predicate CurrentSince(log: seq<Event>, j: int, l: LineageId, k: Key)
  {
    0 <= j < |log| && SetsKey(log[j], l, k) && forall i :: j < i < |log| ==> !Rekeys(log[i], l)
  }

  /** `k` is the key that signs for `l` after these events. */
  ghost predicate Current(log: seq<Event>, l: LineageId, k: Key)
  {
    exists j :: CurrentSince(log, j, l, k)
  }

  /** `k` has been the key of some lineage at some time. */
  predicate Introduced(log: seq<Event>, k: Key)
  {
    exists j :: 0 <= j < |log| && Introduces(log[j], k)
  }

  predicate Grants(e: Event, d: DelegationId)
  {
    e.item.Delegation? && e.item.terms == d.terms
  }

  /** A revocation of the delegation, or a rotation of its lineage that revokes what exists. */
  predicate Ends(e: Event, d: DelegationId)
  {
    || (e.item.Revocation? && e.item.delegation == d)
    || (e.item.Rotation? && e.item.revokeExisting && e.item.lineage == d.terms.lineage)
  }

  predicate Granted(log: seq<Event>, d: DelegationId)
  {
    exists j :: 0 <= j < |log| && Grants(log[j], d)
  }

  ghost predicate StandsSince(log: seq<Event>, j: int, d: DelegationId)
  {
    0 <= j < |log| && Grants(log[j], d) && forall i :: j < i < |log| ==> !Ends(log[i], d)
  }

  /** The delegation was granted and nothing since has ended it. */
  ghost predicate Stands(log: seq<Event>, d: DelegationId)
  {
    exists j :: StandsSince(log, j, d)
  }

  predicate Session(x: Object)
  {
    x.Acknowledgement? || x.Contribution?
  }

  predicate SameNonce(x: Object, y: Object)
  {
    Session(x) && Session(y) && x.delegation == y.delegation && x.nonce == y.nonce
  }

  /** Neither the object nor its nonce under its delegation has occurred. */
  predicate Unheard(log: seq<Event>, x: Object)
  {
    forall i :: 0 <= i < |log| ==> log[i].item != x && !SameNonce(log[i].item, x)
  }

  /** The origin alone also keeps the nonces of a lineage's delegations apart. */
  predicate NonceUnspent(log: seq<Event>, x: Object)
  {
    x.Delegation? ==>
      forall i :: 0 <= i < |log| && log[i].item.Delegation? && log[i].item.terms.lineage == x.terms.lineage ==>
        log[i].item.terms.nonce != x.terms.nonce
  }

  /** An acknowledgement reaches past everything its lineage has acknowledged, its own last event included. */
  predicate MovesOn(log: seq<Event>, l: LineageId, cursor: int)
  {
    forall i :: 0 <= i < |log| && IsAck(log[i], l) ==>
      log[i].item.cursor <= cursor && (log[i].item.cursor == i ==> i < cursor)
  }

  // ------------------------------------------------------------- the law itself

  /** What a session key may still do under its delegation, five minutes of clock skew allowed. */
  ghost predicate MayWrite(
    log: seq<Event>, d: DelegationId, scope: Scope, createdAt: Time, at: Time, signer: Option<Key>)
  {
    && Stands(log, d)
    && d.terms.notBefore <= createdAt <= d.terms.expiresAt
    && at <= d.terms.expiresAt + 300_000
    && createdAt <= at + 300_000
    && scope in d.terms.scopes
    && signer == Some(d.terms.sessionKey)
  }

  /** Whether the object may follow these events when the clock reads `at`. */
  ghost predicate Permitted(log: seq<Event>, x: Object, at: Time)
  {
    match x
    case Registration(ok, k, createdAt, _, signer) =>
      ok && createdAt <= at + 300_000 && signer == Some(k) && !Introduced(log, k)
    case Delegation(ok, t, signer) =>
      && ok && |t.scopes| > 0 && (forall i, j :: 0 <= i < j < |t.scopes| ==> t.scopes[i] != t.scopes[j])
      && 0 < t.expiresAt - t.notBefore <= 2_592_000_000 && t.notBefore <= at + 300_000
      && signer.Some? && Current(log, t.lineage, signer.value)
      && !Granted(log, DelegationIdOf(t))
    case Revocation(ok, l, d, createdAt, _, signer) =>
      && ok && createdAt <= at + 300_000
      && signer.Some? && Current(log, l, signer.value)
      && d.terms.lineage == l && Stands(log, d)
    case Rotation(ok, l, previous, next, _, createdAt, _, previousSigner, newSigner) =>
      && ok && createdAt <= at + 300_000 && previous != next
      && Current(log, l, previous) && previousSigner == Some(previous)
      && !Introduced(log, next) && newSigner == Some(next)
    case Acknowledgement(ok, d, cursor, createdAt, _, signer) =>
      && ok && MayWrite(log, d, "ack", createdAt, at, signer)
      && 0 <= cursor <= |log| && MovesOn(log, d.terms.lineage, cursor)
    case Contribution(ok, d, scope, createdAt, _, _, signer) => ok && MayWrite(log, d, scope, createdAt, at, signer)
    case Unauthored(_, createdAt) => createdAt <= at + 300_000
  }

  /** The lineage, delegation and time an event carries beside its object. */
  predicate Labelled(e: Event)
  {
    match e.item
    case Registration(_, _, createdAt, _, _) => e.lineage == None && e.delegation == None && e.createdAt == createdAt
    case Delegation(_, t, _) => e.lineage == Some(t.lineage) && e.delegation == None && e.createdAt == t.notBefore
    case Revocation(_, l, _, createdAt, _, _) =>
      e.lineage == Some(l) && e.delegation == None && e.createdAt == createdAt
    case Rotation(_, l, _, _, _, createdAt, _, _, _) =>
      e.lineage == Some(l) && e.delegation == None && e.createdAt == createdAt
    case Acknowledgement(_, d, _, createdAt, _, _) =>
      e.lineage == Some(d.terms.lineage) && e.delegation == Some(d) && e.createdAt == createdAt
    case Contribution(_, d, _, createdAt, _, _, _) =>
      e.lineage == Some(d.terms.lineage) && e.delegation == Some(d) && e.createdAt == createdAt
    case Unauthored(_, createdAt) => e.lineage == None && e.delegation == None && e.createdAt == createdAt
  }

  /** The event may follow these events. */
  ghost predicate Lawful(log: seq<Event>, e: Event)
  {
    Permitted(log, e.item, e.receivedAt) && Labelled(e) && Unheard(log, e.item)
  }

  ghost predicate AllLawful(log: seq<Event>)
  {
    forall i :: 0 <= i < |log| ==> Lawful(log[..i], log[i])
  }

  // -------------------------------------------------- one more event, by position

  lemma {:induction false} CurrentNext(log: seq<Event>, e: Event, l: LineageId, k: Key)
    ensures Current(log + [e], l, k) <==> SetsKey(e, l, k) || (Current(log, l, k) && !Rekeys(e, l))
  {
    var log' := log + [e];
    if Current(log', l, k) {
      var j :| CurrentSince(log', j, l, k);
      if j < |log| {
        assert log'[|log|] == e;
        forall i | j < i < |log|
          ensures !Rekeys(log[i], l)
        {
          assert log'[i] == log[i];
        }
        assert CurrentSince(log, j, l, k);
      }
    }
    if SetsKey(e, l, k) {
      assert CurrentSince(log', |log|, l, k);
    } else if Current(log, l, k) && !Rekeys(e, l) {
      var j :| CurrentSince(log, j, l, k);
      assert CurrentSince(log', j, l, k);
    }
  }

  lemma {:induction false} IntroducedNext(log: seq<Event>, e: Event, k: Key)
    ensures Introduced(log + [e], k) <==> Introduced(log, k) || Introduces(e, k)
  {
    var log' := log + [e];
    assert log'[|log|] == e;
    assert forall j :: 0 <= j < |log| ==> log'[j] == log[j];
  }

  lemma {:induction false} GrantedNext(log: seq<Event>, e: Event, d: DelegationId)
    ensures Granted(log + [e], d) <==> Granted(log, d) || Grants(e, d)
  {
    var log' := log + [e];
    assert log'[|log|] == e;
    assert forall j :: 0 <= j < |log| ==> log'[j] == log[j];
  }

  lemma {:induction false} StandsNext(log: seq<Event>, e: Event, d: DelegationId)
    ensures Stands(log + [e], d) <==> Grants(e, d) || (Stands(log, d) && !Ends(e, d))
  {
    var log' := log + [e];
    if Stands(log', d) {
      var j :| StandsSince(log', j, d);
      if j < |log| {
        assert log'[|log|] == e;
        forall i | j < i < |log|
          ensures !Ends(log[i], d)
        {
          assert log'[i] == log[i];
        }
        assert StandsSince(log, j, d);
      }
    }
    if Grants(e, d) {
      assert StandsSince(log', |log|, d);
    } else if Stands(log, d) && !Ends(e, d) {
      var j :| StandsSince(log, j, d);
      assert StandsSince(log', j, d);
    }
  }

  // ------------------------------------------------- the tables mirror the log

  ghost predicate KeyMirrored(log: seq<Event>, lineages: map<LineageId, Key>, l: LineageId)
  {
    && (l in lineages ==> Introduced(log, l.key) && Introduced(log, lineages[l]))
    && forall k :: Current(log, l, k) <==> l in lineages && lineages[l] == k
  }

  ghost predicate UseMirrored(log: seq<Event>, keys: map<LineageId, seq<KeyRow>>, k: Key)
  {
    KeyUsed(keys, k) <==> Introduced(log, k)
  }

  ghost predicate GrantMirrored(log: seq<Event>, rows: map<DelegationId, DelegationRow>, d: DelegationId)
  {
    && (d in rows <==> Granted(log, d))
    && (d in rows ==> (rows[d].revoked.None? <==> Stands(log, d)))
    && (Stands(log, d) ==> d in rows)
    && (d in rows ==>
      && rows[d].lineage == d.terms.lineage && rows[d].sessionKey == d.terms.sessionKey
      && rows[d].scopes == d.terms.scopes
      && rows[d].notBefore == d.terms.notBefore && rows[d].expiresAt == d.terms.expiresAt)
  }

  /** The sequence numbers in a delegation's row: its grant, and the first event after it that ended it. */
  ghost predicate DatesMirrored(log: seq<Event>, row: DelegationRow, d: DelegationId)
  {
    && 0 < row.registered <= |log| && Grants(log[row.registered - 1], d)
    && (row.revoked.Some? ==> FirstEnd(log, row.registered, row.revoked.value, d))
    && (row.revoked.None? ==> forall i :: row.registered <= i < |log| ==> !Ends(log[i], d))
  }

  ghost predicate FirstEnd(log: seq<Event>, from: int, n: int, d: DelegationId)
  {
    0 < from < n <= |log| && Ends(log[n - 1], d) && forall i :: from <= i < n - 1 ==> !Ends(log[i], d)
  }

  /** The key rows of a lineage name the events that set them. */
  ghost predicate RowMirrored(log: seq<Event>, l: LineageId, row: KeyRow)
  {
    0 < row.validFrom <= |log| && SetsKey(log[row.validFrom - 1], l, row.publicKey)
  }

  ghost predicate Dated(s: Origin)
  {
    && (forall d :: d in s.delegations ==> DatesMirrored(s.log, s.delegations[d], d))
    && (forall l, i | l in s.keys && 0 <= i < |s.keys[l]| :: RowMirrored(s.log, l, s.keys[l][i]))
  }

  ghost predicate KeysMirrored(s: Origin)
  {
    && (forall l :: KeyMirrored(s.log, s.lineages, l))
    && (forall k :: UseMirrored(s.log, s.keys, k))
  }

  ghost predicate GrantsMirrored(s: Origin)
  {
    forall d :: GrantMirrored(s.log, s.delegations, d)
  }

  /** The lineage, key, delegation and event tables say what the log says. */
  ghost predicate Mirrors(s: Origin)
  {
    KeysMirrored(s) && GrantsMirrored(s) && Dated(s) && (forall i :: 0 <= i < |s.log| ==> Labelled(s.log[i]))
  }

  lemma {:induction false} RowsAdded(
    keys: map<LineageId, seq<KeyRow>>, l: LineageId, rows: seq<KeyRow>, row: KeyRow, k: Key)
    requires |rows| == |RowsOf(keys, l)|
    requires forall i :: 0 <= i < |rows| ==> rows[i].publicKey == RowsOf(keys, l)[i].publicKey
    ensures KeyUsed(keys[l := rows + [row]], k) <==> KeyUsed(keys, k) || row.publicKey == k
  {
    var keys' := keys[l := rows + [row]];
    if KeyUsed(keys', k) {
      var m, i :| m in keys' && 0 <= i < |keys'[m]| && keys'[m][i].publicKey == k;
      if m != l {
        assert keys'[m] == keys[m];
      } else if i < |rows| {
        assert keys'[l][i] == rows[i];
        assert l in keys && keys[l][i].publicKey == k;
      }
    }
    if KeyUsed(keys, k) {
      var m, i :| m in keys && 0 <= i < |keys[m]| && keys[m][i].publicKey == k;
      assert m in keys' && i < |keys'[m]| && keys'[m][i].publicKey == k;
    }
    if row.publicKey == k {
      assert l in keys' && keys'[l][|rows|] == row;
    }
  }

  lemma {:induction false} UseKept(s: Origin, x: Object, t: Time, k: Key)
    requires UseMirrored(s.log, s.keys, k)
    requires x.Rotation? ==> x.lineage in s.lineages
    requires x.Revocation? || x.Acknowledgement? ==> x.delegation in s.delegations
    ensures var s' := Updated(s, x, t); UseMirrored(s'.log, s'.keys, k)
  {
    var n := |s.log| + 1;
    IntroducedNext(s.log, EventFor(s, x, t), k);
    match x
    case Registration(_, key, _, _, _) =>
      RowsAdded(s.keys, LineageIdOf(key), RowsOf(s.keys, LineageIdOf(key)), KeyRow(0, key, n, None), k);
    case Rotation(_, l, _, next, _, _, _, _, _) =>
      var rows := RowsOf(s.keys, l);
      RowsAdded(s.keys, l, CloseRows(rows, n), KeyRow(MaxVersion(rows) + 1, next, n, None), k);
    case _ =>
  }

  lemma {:induction false} KeyKept(s: Origin, x: Object, t: Time, l: LineageId)
    requires KeyMirrored(s.log, s.lineages, l)
    requires x.Rotation? ==> x.lineage in s.lineages
    requires x.Revocation? || x.Acknowledgement? ==> x.delegation in s.delegations
    ensures var s' := Updated(s, x, t); KeyMirrored(s'.log, s'.lineages, l)
  {
    var s', e := Updated(s, x, t), EventFor(s, x, t);
    assert l == LineageIdOf(l.key);
    if l in s'.lineages {
      IntroducedNext(s.log, e, l.key);
      IntroducedNext(s.log, e, s'.lineages[l]);
    }
    forall k
      ensures Current(s'.log, l, k) <==> l in s'.lineages && s'.lineages[l] == k
    {
      CurrentNext(s.log, e, l, k);
    }
  }

  lemma {:induction false} GrantKept(s: Origin, x: Object, t: Time, d: DelegationId)
    requires GrantMirrored(s.log, s.delegations, d)
    requires x.Rotation? ==> x.lineage in s.lineages
    requires x.Revocation? || x.Acknowledgement? ==> x.delegation in s.delegations
    ensures var s' := Updated(s, x, t); GrantMirrored(s'.log, s'.delegations, d)
  {
    var e := EventFor(s, x, t);
    assert d == DelegationIdOf(d.terms);
    GrantedNext(s.log, e, d);
    StandsNext(s.log, e, d);
  }

  lemma {:induction false} LabelKept(s: Origin, x: Object, t: Time)
    requires GrantsMirrored(s) && (Session(x) ==> x.delegation in s.delegations)
    ensures Labelled(EventFor(s, x, t)) && EventFor(s, x, t).item == x
  {
    if Session(x) {
      assert GrantMirrored(s.log, s.delegations, x.delegation);
    }
  }

  lemma {:induction false} DatesNext(log: seq<Event>, e: Event, row: DelegationRow, d: DelegationId)
    requires DatesMirrored(log, row, d)
    ensures row.revoked.None? && Ends(e, d) ==> DatesMirrored(log + [e], row.(revoked := Some(|log| + 1)), d)
    ensures !(row.revoked.None? && Ends(e, d)) ==> DatesMirrored(log + [e], row, d)
  {
    var log' := log + [e];
    assert log'[|log|] == e;
    assert forall i :: 0 <= i < |log| ==> log'[i] == log[i];
  }

  lemma {:induction false} DateKept(s: Origin, x: Object, t: Time, d: DelegationId)
    requires d in s.delegations && DatesMirrored(s.log, s.delegations[d], d)
    requires s.delegations[d].lineage == d.terms.lineage
    requires x.Rotation? ==> x.lineage in s.lineages
    requires x.Revocation? ==> x.delegation in s.delegations && s.delegations[x.delegation].revoked.None?
    requires x.Acknowledgement? ==> x.delegation in s.delegations
    requires x.Delegation? ==> DelegationIdOf(x.terms) !in s.delegations
    ensures var s' := Updated(s, x, t); d in s'.delegations && DatesMirrored(s'.log, s'.delegations[d], d)
  {
    var s', e := Updated(s, x, t), EventFor(s, x, t);
    var row := s.delegations[d];
    assert x.Delegation? ==> d != DelegationIdOf(x.terms);
    DatesNext(s.log, e, row, d);
    assert Ends(e, d) && row.revoked.None? ==> s'.delegations[d] == row.(revoked := Some(|s.log| + 1));
    assert !(Ends(e, d) && row.revoked.None?) ==> s'.delegations[d] == row;
  }

  lemma {:induction false} RowsKept(s: Origin, x: Object, t: Time, l: LineageId, i: int)
    requires x.Rotation? ==> x.lineage in s.lineages
    requires x.Revocation? || x.Acknowledgement? ==> x.delegation in s.delegations
    requires forall j :: 0 <= j < |RowsOf(s.keys, l)| ==> RowMirrored(s.log, l, RowsOf(s.keys, l)[j])
    requires l in Updated(s, x, t).keys && 0 <= i < |Updated(s, x, t).keys[l]|
    ensures var s' := Updated(s, x, t); RowMirrored(s'.log, l, s'.keys[l][i])
  {
    var s', e := Updated(s, x, t), EventFor(s, x, t);
    assert s'.log == s.log + [e] && s'.log[|s.log|] == e;
    assert l == LineageIdOf(l.key);
    var row := s'.keys[l][i];
    if i < |RowsOf(s.keys, l)| {
      assert RowMirrored(s.log, l, RowsOf(s.keys, l)[i]);
      assert row.validFrom == RowsOf(s.keys, l)[i].validFrom && row.publicKey == RowsOf(s.keys, l)[i].publicKey;
    }
  }

  lemma {:induction false} DatedKept(s: Origin, x: Object, now: Time, t: Time)
    requires Dated(s) && GrantsMirrored(s) && Accepts(s, x, now)
    ensures Dated(Updated(s, x, t))
  {
    var s' := Updated(s, x, t);
    forall d | d in s'.delegations
      ensures DatesMirrored(s'.log, s'.delegations[d], d)
    {
      if d in s.delegations {
        assert GrantMirrored(s.log, s.delegations, d);
        DateKept(s, x, t, d);
      }
    }
    forall l, i | l in s'.keys && 0 <= i < |s'.keys[l]|
      ensures RowMirrored(s'.log, l, s'.keys[l][i])
    {
      RowsKept(s, x, t, l, i);
    }
  }

  lemma {:induction false} MirrorsKept(s: Origin, x: Object, now: Time, t: Time)
    requires Mirrors(s) && Accepts(s, x, now)
    ensures Mirrors(Updated(s, x, t))
  {
    var s' := Updated(s, x, t);
    assert s'.log == s.log + [EventFor(s, x, t)];
    forall l
      ensures KeyMirrored(s'.log, s'.lineages, l)
    {
      KeyKept(s, x, t, l);
    }
    forall k
      ensures UseMirrored(s'.log, s'.keys, k)
    {
      UseKept(s, x, t, k);
    }
    forall d
      ensures GrantMirrored(s'.log, s'.delegations, d)
    {
      GrantKept(s, x, t, d);
    }
    DatedKept(s, x, now, t);
    LabelKept(s, x, t);
  }

  // ------------------------------------------------------ acknowledgements rise

  ghost predicate RisesAt(log: seq<Event>, j: int)
    requires 0 <= j < |log|
  {
    forall l :: IsAck(log[j], l) ==> MovesOn(log[..j], l, log[j].item.cursor)
  }

  ghost predicate AcksRise(log: seq<Event>)
  {
    forall j :: 0 <= j < |log| ==> RisesAt(log, j)
  }

  lemma {:induction false} AcksRiseNext(log: seq<Event>, e: Event)
    requires AcksRise(log)
    requires forall l :: IsAck(e, l) ==> MovesOn(log, l, e.item.cursor)
    ensures AcksRise(log + [e])
  {
    var log' := log + [e];
    forall j | 0 <= j < |log'|
      ensures RisesAt(log', j)
    {
      assert log'[..j] == log[..j];
      assert log[..|log|] == log;
      assert j < |log| ==> RisesAt(log, j) && log'[j] == log[j];
    }
  }

  lemma {:induction false} LastAckIsLast(log: seq<Event>, l: LineageId, i: int)
    requires 0 <= i < |log| && IsAck(log[i], l)
    ensures LastAck(log, l).Some? && i < LastAck(log, l).value.0
  {
    if i < |log| - 1 && !IsAck(log[|log| - 1], l) {
      LastAckIsLast(log[..|log| - 1], l, i);
    }
  }

  /** The last acknowledgement stands for all of them. */
  lemma {:induction false} LastAckBounds(log: seq<Event>, l: LineageId, cursor: int)
    requires AcksRise(log)
    ensures MovesOn(log, l, cursor) <==> (LastAck(log, l).Some? ==> Effective(LastAck(log, l).value) <= cursor)
  {
    var ack := LastAck(log, l);
    if ack.Some? {
      LastAckIsThere(log, l);
      var j := ack.value.0 - 1;
      assert RisesAt(log, j);
      if Effective(ack.value) <= cursor {
        forall i | 0 <= i < |log| && IsAck(log[i], l)
          ensures log[i].item.cursor <= cursor && (log[i].item.cursor == i ==> i < cursor)
        {
          LastAckIsLast(log, l, i);
          assert i < j ==> log[..j][i] == log[i];
        }
      }
    } else {
      forall i | 0 <= i < |log|
        ensures !IsAck(log[i], l)
      {
        if IsAck(log[i], l) {
          LastAckIsLast(log, l, i);
        }
      }
    }
  }

  // ------------------------------------------------------- decided by the log

  ghost predicate NoncesMirrored(s: Origin)
  {
    forall l, nonce :: (l, nonce) in s.nonces <==> NonceSpent(s.log, l, nonce)
  }

  predicate NonceSpent(log: seq<Event>, l: LineageId, nonce: string)
  {
    exists i :: 0 <= i < |log| && SpendsNonce(log[i], l, nonce)
  }

  predicate SpendsNonce(e: Event, l: LineageId, nonce: string)
  {
    e.item.Delegation? && e.item.terms.lineage == l && e.item.terms.nonce == nonce
  }

  lemma {:induction false} AuthorizedByLog(
    s: Origin, d: DelegationId, scope: Scope, createdAt: Time, now: Time, signer: Option<Key>)
    requires GrantMirrored(s.log, s.delegations, d)
    ensures MayWrite(s.log, d, scope, createdAt, now, signer) <==>
      Authorized(s, d, scope, createdAt, now) && signer == Some(s.delegations[d].sessionKey)
  {
  }

  lemma {:induction false} KeyByLog(s: Origin, l: LineageId, k: Key)
    requires KeysMirrored(s)
    ensures Current(s.log, l, k) <==> l in s.lineages && s.lineages[l] == k
  {
    assert KeyMirrored(s.log, s.lineages, l);
  }

  /** A key that no event introduced is nobody's, and neither is its lineage. */
  lemma {:induction false} UnknownKey(s: Origin, k: Key)
    requires KeysMirrored(s)
    ensures Introduced(s.log, k) <==> KeyUsed(s.keys, k)
    ensures !Introduced(s.log, k) ==> LineageIdOf(k) !in s.lineages && k !in s.lineages.Values
  {
    assert UseMirrored(s.log, s.keys, k);
    assert KeyMirrored(s.log, s.lineages, LineageIdOf(k));
    assert forall l :: l in s.lineages ==> KeyMirrored(s.log, s.lineages, l);
  }

  lemma {:induction false} AcceptsByLog(s: Origin, x: Object, now: Time)
    requires Mirrors(s) && AcksRise(s.log) && AcksOk(s) && NoncesMirrored(s)
    ensures Accepts(s, x, now) <==> Permitted(s.log, x, now) && NonceUnspent(s.log, x)
  {
    match x
    case Registration(_, k, _, _, _) => UnknownKey(s, k);
    case Delegation(_, t, signer) =>
      if signer.Some? {
        KeyByLog(s, t.lineage, signer.value);
      }
      assert GrantMirrored(s.log, s.delegations, DelegationIdOf(t));
      assert (t.lineage, t.nonce) in s.nonces <==> NonceSpent(s.log, t.lineage, t.nonce);
      assert NonceUnspent(s.log, x) <==> !NonceSpent(s.log, t.lineage, t.nonce);
    case Revocation(_, l, d, _, _, signer) =>
      if signer.Some? {
        KeyByLog(s, l, signer.value);
      }
      assert GrantMirrored(s.log, s.delegations, d);
    case Rotation(_, l, previous, next, _, _, _, _, _) =>
      KeyByLog(s, l, previous);
      UnknownKey(s, next);
    case Acknowledgement(_, d, cursor, createdAt, _, signer) =>
      assert GrantMirrored(s.log, s.delegations, d);
      AuthorizedByLog(s, d, ACK_SCOPE, createdAt, now, signer);
      LastAckBounds(s.log, d.terms.lineage, cursor);
      assert AckOk(s, d.terms.lineage);
    case Contribution(_, d, scope, createdAt, _, _, signer) =>
      assert GrantMirrored(s.log, s.delegations, d);
      AuthorizedByLog(s, d, scope, createdAt, now, signer);
    case Unauthored(_, _) =>
  }

  lemma {:induction false} RepeatsByLog(log: seq<Event>, e: Event)
    requires Labelled(e) && forall i :: 0 <= i < |log| ==> Labelled(log[i])
    ensures Repeats(log, e) <==> !Unheard(log, e.item)
  {
    forall i | 0 <= i < |log|
      ensures SameNonce(log[i].item, e.item) <==>
        e.delegation.Some? && log[i].delegation == e.delegation && NonceOf(log[i].item) == NonceOf(e.item)
    {
    }
  }

  lemma {:induction false} NoncesKept(s: Origin, x: Object, now: Time, t: Time)
    requires NoncesMirrored(s) && Accepts(s, x, now)
    ensures NoncesMirrored(Updated(s, x, t))
  {
    var s', e := Updated(s, x, t), EventFor(s, x, t);
    assert s'.log == s.log + [e] && s'.log[|s.log|] == e;
    forall l, nonce
      ensures (l, nonce) in s'.nonces <==> NonceSpent(s'.log, l, nonce)
    {
      assert forall i :: 0 <= i < |s.log| ==> s'.log[i] == s.log[i];
      assert NonceSpent(s'.log, l, nonce) <==> NonceSpent(s.log, l, nonce) || SpendsNonce(e, l, nonce);
    }
  }

  /** What the origin's tables are worth: everything they say, the log says. */
  ghost predicate Faithful(s: Origin)
  {
    Mirrors(s) && AcksRise(s.log) && NoncesMirrored(s)
  }

  lemma {:induction false} SubmitKeepsFaithful(s: Origin, q: Request)
    requires OriginInv(s) && Faithful(s)
    ensures Faithful(Submit(s, q))
  {
    if Succeeds(s, q) {
      var x, now, t := q.item, q.authorizedAt, q.receivedAt;
      AcceptsByLog(s, x, now);
      MirrorsKept(s, x, now, t);
      NoncesKept(s, x, now, t);
      var e := EventFor(s, x, t);
      assert Submit(s, q).log == s.log + [e];
      assert Session(x) ==> GrantMirrored(s.log, s.delegations, x.delegation);
      AcksRiseNext(s.log, e);
    }
  }

  lemma {:induction false} ServeFaithful(qs: seq<Request>)
    ensures OriginInv(Serve(qs)) && Faithful(Serve(qs))
  {
    ServeKeepsInv(qs);
    if qs != [] {
      ServeFaithful(qs[..|qs| - 1]);
      SubmitKeepsFaithful(Serve(qs[..|qs| - 1]), qs[|qs| - 1]);
    }
  }

  lemma {:induction false} SessionIsGranted(s: Origin, x: Object, now: Time)
    requires Accepts(s, x, now)
    ensures Session(x) ==> x.delegation in s.delegations
  {
  }

  lemma {:induction false} SucceedsByLog(s: Origin, q: Request)
    requires OriginInv(s) && Faithful(s)
    ensures Succeeds(s, q) <==>
      Permitted(s.log, q.item, q.authorizedAt) && NonceUnspent(s.log, q.item) && Unheard(s.log, q.item)
    ensures Succeeds(s, q) ==>
      Labelled(EventFor(s, q.item, q.receivedAt)) && EventFor(s, q.item, q.receivedAt).item == q.item
  {
    var x := q.item;
    AcceptsByLog(s, x, q.authorizedAt);
    if Accepts(s, x, q.authorizedAt) {
      SessionIsGranted(s, x, q.authorizedAt);
      LabelKept(s, x, q.receivedAt);
      RepeatsByLog(s.log, EventFor(s, x, q.receivedAt));
    }
  }

  lemma {:induction false} SubmitLog(s: Origin, q: Request)
    ensures Submit(s, q).log == if Succeeds(s, q) then s.log + [EventFor(s, q.item, q.receivedAt)] else s.log
  {
  }

  lemma {:induction false} ServeNext(qs: seq<Request>, q: Request)
    ensures Serve(qs + [q]) == Submit(Serve(qs), q)
  {
    assert (qs + [q])[..|qs|] == qs;
  }

  ghost predicate Appends(log: seq<Event>, log': seq<Event>, q: Request)
  {
    && |log'| == |log| + 1 && log'[..|log|] == log
    && log'[|log|].item == q.item && log'[|log|].receivedAt == q.receivedAt && Labelled(log'[|log|])
  }

  /**
    After every run the origin's answer to the next request is decided by its
    log alone: the request succeeds exactly if the law permits its object at the
    clock reading that authorises it, nothing has been said before, and a
    delegation's nonce is new to its lineage.  What it appends is labelled by
    the object's own lineage and delegation.
  */
  lemma {:induction false} OriginDecidesByLog(qs: seq<Request>, q: Request)
    ensures var log := Serve(qs).log;
      Succeeds(Serve(qs), q) <==>
        Permitted(log, q.item, q.authorizedAt) && NonceUnspent(log, q.item) && Unheard(log, q.item)
    ensures Succeeds(Serve(qs), q) ==> Appends(Serve(qs).log, Serve(qs + [q]).log, q)
    ensures !Succeeds(Serve(qs), q) ==> Serve(qs + [q]) == Serve(qs)
  {
    ServeFaithful(qs);
    var s := Serve(qs);
    SucceedsByLog(s, q);
    SubmitLog(s, q);
    ServeNext(qs, q);
  }

  // ----------------------------------------------------- the importer likewise

  ghost predicate FaithfulCopy(r: Importer)
  {
    ImporterInv(r) && Mirrors(AsOrigin(r)) && AcksRise(r.log)
  }

  lemma {:induction false} CurrentIsValue(r: Importer, k: Key)
    ensures CurrentKey(r, k) <==> k in CurrentKeys(r).Values
  {
    if CurrentKey(r, k) {
      var l :| l in r.lineages && r.lineages[l].currentKey == k;
      assert CurrentKeys(r)[l] == k;
    }
  }

  lemma {:induction false} SessionByLog(r: Importer, e: Event)
    requires Session(e.item) && GrantMirrored(r.log, r.delegations, e.item.delegation) && AcksRise(r.log)
    ensures Admits(r, e) <==> Permitted(r.log, e.item, e.receivedAt) && Labelled(e)
  {
    if e.item.Acknowledgement? {
      LastAckBounds(r.log, e.item.delegation.terms.lineage, e.item.cursor);
    }
  }

  lemma {:induction false} AdmitsByLog(r: Importer, e: Event)
    requires Mirrors(AsOrigin(r)) && AcksRise(r.log)
    ensures Admits(r, e) <==> Permitted(r.log, e.item, e.receivedAt) && Labelled(e)
  {
    var s := AsOrigin(r);
    match e.item
    case Registration(_, k, _, _, _) =>
      UnknownKey(s, k);
      CurrentIsValue(r, k);
    case Delegation(_, t, signer) =>
      if signer.Some? {
        KeyByLog(s, t.lineage, signer.value);
      }
      assert GrantMirrored(s.log, s.delegations, DelegationIdOf(t));
    case Revocation(_, l, d, _, _, signer) =>
      if signer.Some? {
        KeyByLog(s, l, signer.value);
      }
      assert GrantMirrored(s.log, s.delegations, d);
    case Rotation(_, l, previous, next, _, _, _, _, _) =>
      KeyByLog(s, l, previous);
      UnknownKey(s, next);
    case Unauthored(_, _) =>
    case _ =>
      assert GrantMirrored(s.log, s.delegations, e.item.delegation);
      SessionByLog(r, e);
  }

  lemma {:induction false} SameMirror(s: Origin, r: Importer)
    requires Agrees(s, r) && KeysOk(s) && Mirrors(s)
    ensures Mirrors(AsOrigin(r))
  {
    assert CurrentKeys(r) == s.lineages;
    var o := AsOrigin(r);
    assert o.log == s.log && o.lineages == s.lineages && o.keys == s.keys && o.delegations == s.delegations;
    assert KeysMirrored(o);
  }

  lemma {:induction false} ReplayByLog(r: Importer, e: Event)
    requires FaithfulCopy(r)
    ensures Replay(r, e).Some? <==> Lawful(r.log, e)
    ensures Replay(r, e).Some? ==> FaithfulCopy(Replay(r, e).value) && Replay(r, e).value.log == r.log + [e]
  {
    AdmitsByLog(r, e);
    if Admits(r, e) {
      RepeatsByLog(r.log, e);
      var s, x, t := AsOrigin(r), e.item, e.receivedAt;
      AdmitsMeansAccepts(r, e);
      MirrorsKept(s, x, t, t);
      KeysKept(s, x, t, t);
      ProjectedAgrees(s, r, x, t);
      SameMirror(Updated(s, x, t), Projected(r, e));
      ReplayKeepsInv(r, e);
      AcksRiseNext(r.log, e);
    }
  }

  lemma {:induction false} LawfulNext(log: seq<Event>, e: Event)
    ensures AllLawful(log + [e]) <==> AllLawful(log) && Lawful(log, e)
  {
    var log' := log + [e];
    assert log'[..|log|] == log && log'[|log|] == e;
    forall i | 0 <= i < |log|
      ensures log'[..i] == log[..i] && log'[i] == log[i]
    {
    }
  }

  /**
    Whoever wrote the log: it imports exactly if every event of it is lawful
    after the ones before it.
  */
  lemma {:induction false} ImportsIffLawful(log: seq<Event>)
    ensures ReplayAll(EMPTY_IMPORTER, log).Some? <==> AllLawful(log)
    ensures ReplayAll(EMPTY_IMPORTER, log).Some? ==>
      FaithfulCopy(ReplayAll(EMPTY_IMPORTER, log).value) && ReplayAll(EMPTY_IMPORTER, log).value.log == log
  {
    if log == [] {
      assert Mirrors(AsOrigin(EMPTY_IMPORTER));
    } else {
      var front, e := log[..|log| - 1], log[|log| - 1];
      assert front + [e] == log;
      ImportsIffLawful(front);
      LawfulNext(front, e);
      if ReplayAll(EMPTY_IMPORTER, front).Some? {
        ReplayByLog(ReplayAll(EMPTY_IMPORTER, front).value, e);
      }
    }
  }

  // ----------------------------------------------------------------- histories

  /** The event was permitted at some clock reading when it was written. */
  ghost predicate Passed(log: seq<Event>, e: Event)
  {
    (exists at :: Permitted(log, e.item, at)) && Labelled(e) && Unheard(log, e.item)
  }

  ghost predicate AllPassed(log: seq<Event>)
  {
    forall i :: 0 <= i < |log| ==> Passed(log[..i], log[i])
  }

  lemma {:induction false} PassedOnce(log: seq<Event>, e: Event, at: Time)
    requires Permitted(log, e.item, at) && Labelled(e) && Unheard(log, e.item)
    ensures Passed(log, e)
  {
  }

  lemma {:induction false} PassedNext(log: seq<Event>, e: Event)
    requires AllPassed(log) && Passed(log, e)
    ensures AllPassed(log + [e])
  {
    var log' := log + [e];
    assert log'[..|log|] == log && log'[|log|] == e;
    forall i | 0 <= i < |log|
      ensures Passed(log'[..i], log'[i])
    {
      assert log'[..i] == log[..i] && log'[i] == log[i];
    }
  }

  lemma {:induction false} StepPassed(s: Origin, q: Request)
    requires OriginInv(s) && Faithful(s) && AllPassed(s.log)
    ensures AllPassed(Submit(s, q).log)
  {
    SucceedsByLog(s, q);
    SubmitLog(s, q);
    if Succeeds(s, q) {
      var e := EventFor(s, q.item, q.receivedAt);
      PassedOnce(s.log, e, q.authorizedAt);
      PassedNext(s.log, e);
    }
  }

  lemma {:induction false} OriginHistory(qs: seq<Request>)
    ensures AllPassed(Serve(qs).log)
  {
    if qs != [] {
      var front, q := qs[..|qs| - 1], qs[|qs| - 1];
      OriginHistory(front);
      ServeFaithful(front);
      StepPassed(Serve(front), q);
    }
  }

  lemma {:induction false} ImportedHistory(log: seq<Event>)
    requires ReplayAll(EMPTY_IMPORTER, log).Some?
    ensures AllPassed(log)
  {
    ImportsIffLawful(log);
    forall i | 0 <= i < |log|
      ensures Passed(log[..i], log[i])
    {
      assert Lawful(log[..i], log[i]);
    }
  }

  /** A delegation is granted once. */
  lemma {:induction false} GrantedOnce(log: seq<Event>, i: int, j: int, d: DelegationId)
    requires AllPassed(log) && 0 <= i < j < |log| && Grants(log[i], d)
    ensures !Grants(log[j], d)
  {
    assert Passed(log[..j], log[j]);
    assert log[..j][i] == log[i];
    assert d == DelegationIdOf(d.terms);
  }

  /** So what has ended does not stand again. */
  lemma {:induction false} EndedIsOver(log: seq<Event>, j: int, i: int, d: DelegationId)
    requires AllPassed(log) && 0 <= j < i < |log| && Grants(log[j], d) && Ends(log[i], d)
    ensures !Stands(log, d)
  {
    forall m | 0 <= m < |log| && Grants(log[m], d)
      ensures !StandsSince(log, m, d)
    {
      if j < m {
        GrantedOnce(log, j, m, d);
      } else if m < j {
        GrantedOnce(log, m, j, d);
      }
    }
  }

  /**
    In every run, once a delegation has been revoked, by itself or by a rotation
    of its lineage's key, no request made under it succeeds.
  */
  lemma {:induction false} RevokedWritesNoMore(qs: seq<Request>, q: Request, j: int, i: int)
    requires Session(q.item) && 0 <= j < i < |Serve(qs).log|
    requires Grants(Serve(qs).log[j], q.item.delegation) && Ends(Serve(qs).log[i], q.item.delegation)
    ensures !Succeeds(Serve(qs), q)
  {
    OriginHistory(qs);
    EndedIsOver(Serve(qs).log, j, i, q.item.delegation);
    OriginDecidesByLog(qs, q);
  }

  /** And no importer takes such an event from anybody. */
  lemma {:induction false} RevokedImportsNoMore(log: seq<Event>, j: int, i: int, m: int)
    requires 0 <= j < i < m < |log| && Session(log[m].item)
    requires Grants(log[j], log[m].item.delegation) && Ends(log[i], log[m].item.delegation)
    ensures ReplayAll(EMPTY_IMPORTER, log).None?
  {
    if ReplayAll(EMPTY_IMPORTER, log).Some? {
      ImportedHistory(log);
      ImportsIffLawful(log);
      assert Lawful(log[..m], log[m]);
      forall n | 0 <= n < m
        ensures log[..m][n] == log[n] && log[..m][..n] == log[..n] && Passed(log[..m][..n], log[..m][n])
      {
      }
      EndedIsOver(log[..m], j, i, log[m].item.delegation);
    }
  }

  /** Nothing is written twice: no object, no nonce under a delegation, no key. */
  ghost predicate Apart(a: Event, b: Event)
  {
    && a.item != b.item
    && (a.delegation.Some? && a.delegation == b.delegation ==> NonceOf(a.item) != NonceOf(b.item))
    && (forall k :: !(Introduces(a, k) && Introduces(b, k)))
  }

  lemma {:induction false} PassedApart(log: seq<Event>, i: int, j: int)
    requires AllPassed(log) && 0 <= i < j < |log|
    ensures Apart(log[i], log[j])
  {
    assert Passed(log[..j], log[j]) && Passed(log[..i], log[i]);
    assert log[..j][i] == log[i];
  }

  lemma {:induction false} NothingTwice(qs: seq<Request>, log: seq<Event>, i: int, j: int)
    requires log == Serve(qs).log || ReplayAll(EMPTY_IMPORTER, log).Some?
    requires 0 <= i < j < |log|
    ensures Apart(log[i], log[j])
  {
    OriginHistory(qs);
    if ReplayAll(EMPTY_IMPORTER, log).Some? {
      ImportedHistory(log);
    }
    PassedApart(log, i, j);
  }

  /**
    Event `n` of the lineage revoked its standing delegations at `n`, if it said
    so, and touched no other row.
  */
  ghost predicate RevokedAt(
    rows: map<DelegationId, DelegationRow>, rows': map<DelegationId, DelegationRow>, l: LineageId, revoke: bool,
    n: int)
  {
    && rows'.Keys == rows.Keys
    && forall d :: d in rows ==>
      if revoke && rows[d].lineage == l then
        && rows'[d].revoked == (if rows[d].revoked.None? then Some(n) else rows[d].revoked)
        && rows'[d].(revoked := None) == rows[d].(revoked := None)
      else rows'[d] == rows[d]
  }

  /** What one rotation does to the delegations, at the origin and at an importer. */
  lemma {:induction false} RotationRevokes(s: Origin, q: Request, r: Importer, e: Event)
    requires q.item.Rotation? && Succeeds(s, q)
    requires e.item.Rotation? && Replay(r, e).Some?
    ensures RevokedAt(
      s.delegations, Submit(s, q).delegations, q.item.lineage, q.item.revokeExisting, |s.log| + 1)
    ensures RevokedAt(
      r.delegations, Replay(r, e).value.delegations, e.item.lineage, e.item.revokeExisting, |r.log| + 1)
  {
  }
}
