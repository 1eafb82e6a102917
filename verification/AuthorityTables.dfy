/**
  The authority tables as objects that requests and imports update in place.
  Each method checks what the program checks, in its order, is proved against
  the state machines of Authority, and keeps the invariants of AuthorityReplay;
  `RunAndImport` drives the two sides against each other.
*/
module AuthorityTables {
  import opened Common
  import opened Authority
  import opened AuthorityReplay

  type Outcome = Result<int, Error>

  /** The origin's own database. */
  class OriginTables {
    var log: seq<Event>
    var lineages: map<LineageId, Key>
    var keys: map<LineageId, seq<KeyRow>>
    var delegations: map<DelegationId, DelegationRow>
    var nonces: set<(LineageId, string)>
    var acks: map<LineageId, int>

    ghost function State(): Origin
      reads this
    {
      Origin(log, lineages, keys, delegations, nonces, acks)
    }

    constructor ()
      ensures State() == EMPTY_ORIGIN && OriginInv(State())
    {
      log, lineages, keys, delegations, nonces, acks := [], map[], map[], map[], {}, map[];
      new;
      ServeKeepsInv([]);
    }

    /** `append_event`: the unique indexes may still refuse the insert. */
    method Append(e: Event) returns (r: Outcome)
      modifies this`log
      ensures r == if Repeats(old(log), e) then Err(Conflict) else Ok(|old(log)| + 1)
      ensures log == if r.Ok? then old(log) + [e] else old(log)
    {
      if Repeats(log, e) {
        return Err(Conflict);
      }
      log := log + [e];
      return Ok(|log|);
    }

    method RegisterLineage(x: Object, now: Time, receivedAt: Time) returns (r: Outcome)
      requires x.Registration?
      modifies this
      ensures r.Ok? <==> Succeeds(old(State()), Request(x, now, receivedAt))
      ensures State() == Submit(old(State()), Request(x, now, receivedAt))
      ensures OriginInv(old(State())) ==> OriginInv(State())
    {
      ghost var s, q := State(), Request(x, now, receivedAt);
      if !x.wellFormed || !Timely(x.createdAt, now) {
        return Err(Validation);
      }
      if x.signer != Some(x.publicKey) {
        return Err(Unauthorized);
      }
      var l := LineageIdOf(x.publicKey);
      if l in lineages || x.publicKey in lineages.Values || KeyUsed(keys, x.publicKey) {
        return Err(Conflict);
      }
      r := Append(Event(None, None, x.createdAt, receivedAt, x));
      if r.Ok? {
        lineages := lineages[l := x.publicKey];
        keys := keys[l := RowsOf(keys, l) + [KeyRow(0, x.publicKey, r.value, None)]];
      }
      assert State() == Submit(s, q);
      if OriginInv(s) {
        SubmitKeepsInv(s, q);
      }
    }

    method RegisterDelegation(x: Object, now: Time, receivedAt: Time) returns (r: Outcome)
      requires x.Delegation?
      modifies this
      ensures r.Ok? <==> Succeeds(old(State()), Request(x, now, receivedAt))
      ensures State() == Submit(old(State()), Request(x, now, receivedAt))
      ensures OriginInv(old(State())) ==> OriginInv(State())
    {
      ghost var s, q := State(), Request(x, now, receivedAt);
      var t := x.terms;
      if !x.wellFormed || !ValidTerms(t, now) {
        return Err(Validation);
      }
      if t.lineage !in lineages {
        return Err(NotFound);
      }
      if x.signer != Some(lineages[t.lineage]) {
        return Err(Unauthorized);
      }
      var d := DelegationIdOf(t);
      if d in delegations || (t.lineage, t.nonce) in nonces {
        return Err(Conflict);
      }
      r := Append(Event(Some(t.lineage), None, t.notBefore, receivedAt, x));
      if r.Ok? {
        delegations := delegations[d := RowOf(t, r.value)];
        nonces := nonces + {(t.lineage, t.nonce)};
      }
      assert State() == Submit(s, q);
      if OriginInv(s) {
        SubmitKeepsInv(s, q);
      }
    }

    method RevokeDelegation(x: Object, now: Time, receivedAt: Time) returns (r: Outcome)
      requires x.Revocation?
      modifies this
      ensures r.Ok? <==> Succeeds(old(State()), Request(x, now, receivedAt))
      ensures State() == Submit(old(State()), Request(x, now, receivedAt))
      ensures OriginInv(old(State())) ==> OriginInv(State())
    {
      ghost var s, q := State(), Request(x, now, receivedAt);
      if !x.wellFormed || !Timely(x.createdAt, now) {
        return Err(Validation);
      }
      if x.lineage !in lineages {
        return Err(NotFound);
      }
      if x.signer != Some(lineages[x.lineage]) {
        return Err(Unauthorized);
      }
      if x.delegation !in delegations {
        return Err(NotFound);
      }
      var row := delegations[x.delegation];
      if row.lineage != x.lineage {
        return Err(Unauthorized);
      }
      if row.revoked.Some? {
        return Err(Conflict);
      }
      r := Append(Event(Some(x.lineage), None, x.createdAt, receivedAt, x));
      if r.Ok? {
        delegations := delegations[x.delegation := row.(revoked := Some(r.value))];
      }
      assert State() == Submit(s, q);
      if OriginInv(s) {
        SubmitKeepsInv(s, q);
      }
    }

    method RotateLineageKey(x: Object, now: Time, receivedAt: Time) returns (r: Outcome)
      requires x.Rotation?
      modifies this
      ensures r.Ok? <==> Succeeds(old(State()), Request(x, now, receivedAt))
      ensures State() == Submit(old(State()), Request(x, now, receivedAt))
      ensures OriginInv(old(State())) ==> OriginInv(State())
    {
      ghost var s, q := State(), Request(x, now, receivedAt);
      if !x.wellFormed || !Timely(x.createdAt, now) || x.previousKey == x.newKey {
        return Err(Validation);
      }
      if x.lineage !in lineages {
        return Err(NotFound);
      }
      if lineages[x.lineage] != x.previousKey {
        return Err(Conflict);
      }
      if x.previousSigner != Some(x.previousKey) || x.newSigner != Some(x.newKey) {
        return Err(Unauthorized);
      }
      if KeyUsed(keys, x.newKey) {
        return Err(Conflict);
      }
      var rows := RowsOf(keys, x.lineage);
      var version := MaxVersion(rows) + 1;
      r := Append(Event(Some(x.lineage), None, x.createdAt, receivedAt, x));
      if r.Ok? {
        rows := CloseRows(rows, r.value);
        lineages := lineages[x.lineage := x.newKey];
        keys := keys[x.lineage := rows + [KeyRow(version, x.newKey, r.value, None)]];
        if x.revokeExisting {
          delegations := RevokeAll(delegations, x.lineage, r.value);
        }
      }
      assert State() == Submit(s, q);
      if OriginInv(s) {
        SubmitKeepsInv(s, q);
      }
    }

    /** `authorize_delegation`. */
    method AuthorizeDelegation(
      d: DelegationId, scope: Scope, createdAt: Time, now: Time)
      returns (r: Result<DelegationRow, Error>)
      ensures r.Ok? <==> Authorized(State(), d, scope, createdAt, now)
      ensures r.Ok? ==> d in delegations && r.value == delegations[d]
    {
      if d !in delegations {
        return Err(NotFound);
      }
      var row := delegations[d];
      if row.revoked.Some? || createdAt < row.notBefore || createdAt > row.expiresAt {
        return Err(Unauthorized);
      }
      if now > row.expiresAt + SKEW {
        return Err(Unauthorized);
      }
      if !Timely(createdAt, now) {
        return Err(Validation);
      }
      if scope !in row.scopes {
        return Err(Unauthorized);
      }
      return Ok(row);
    }

    /**
      `refused` is the verdict of the projection and of the artifact store, which
      may turn down what authority allows.
    */
    method AcceptContribution(x: Object, now: Time, receivedAt: Time, refused: bool) returns (r: Outcome)
      requires x.Contribution?
      modifies this
      ensures r.Ok? <==> !refused && Succeeds(old(State()), Request(x, now, receivedAt))
      ensures State() == if refused then old(State()) else Submit(old(State()), Request(x, now, receivedAt))
      ensures OriginInv(old(State())) ==> OriginInv(State())
    {
      ghost var s, q := State(), Request(x, now, receivedAt);
      if !x.wellFormed {
        return Err(Validation);
      }
      var row := AuthorizeDelegation(x.delegation, x.scope, x.createdAt, now);
      if row.Err? {
        return Err(row.error);
      }
      if x.signer != Some(row.value.sessionKey) {
        return Err(Unauthorized);
      }
      if refused {
        return Err(Validation);
      }
      r := Append(Event(Some(row.value.lineage), Some(x.delegation), x.createdAt, receivedAt, x));
      assert State() == Submit(s, q);
      if OriginInv(s) {
        SubmitKeepsInv(s, q);
      }
    }

    method Acknowledge(x: Object, now: Time, receivedAt: Time) returns (r: Outcome)
      requires x.Acknowledgement?
      modifies this
      ensures r.Ok? <==> Succeeds(old(State()), Request(x, now, receivedAt))
      ensures State() == Submit(old(State()), Request(x, now, receivedAt))
      ensures OriginInv(old(State())) ==> OriginInv(State())
    {
      ghost var s, q := State(), Request(x, now, receivedAt);
      if !x.wellFormed || x.cursor < 0 {
        return Err(Validation);
      }
      var row := AuthorizeDelegation(x.delegation, ACK_SCOPE, x.createdAt, now);
      if row.Err? {
        return Err(row.error);
      }
      if x.signer != Some(row.value.sessionKey) {
        return Err(Unauthorized);
      }
      var l := row.value.lineage;
      var head := |log|;
      if x.cursor > head {
        return Err(Validation);
      }
      var previous := if l in acks then acks[l] else 0;
      if x.cursor < previous {
        return Err(Conflict);
      }
      r := Append(Event(Some(l), Some(x.delegation), x.createdAt, receivedAt, x));
      if r.Ok? {
        acks := acks[l := if x.cursor == head then r.value else x.cursor];
      }
      assert State() == Submit(s, q);
      if OriginInv(s) {
        SubmitKeepsInv(s, q);
      }
    }

    /** Observations and witnesses, which the node itself stamps. */
    method AppendUnauthored(x: Object, now: Time, receivedAt: Time) returns (r: Outcome)
      requires x.Unauthored?
      modifies this
      ensures r.Ok? <==> Succeeds(old(State()), Request(x, now, receivedAt))
      ensures State() == Submit(old(State()), Request(x, now, receivedAt))
      ensures OriginInv(old(State())) ==> OriginInv(State())
    {
      ghost var s, q := State(), Request(x, now, receivedAt);
      if !Timely(x.createdAt, now) {
        return Err(Validation);
      }
      r := Append(Event(None, None, x.createdAt, receivedAt, x));
      assert State() == Submit(s, q);
      if OriginInv(s) {
        SubmitKeepsInv(s, q);
      }
    }

    /** Any request, by kind; whatever it is and whatever becomes of it, the invariants are kept. */
    method Handle(q: Request) returns (r: Outcome)
      requires OriginInv(State())
      modifies this
      ensures OriginInv(State())
      ensures r.Ok? <==> Succeeds(old(State()), q)
      ensures State() == Submit(old(State()), q)
    {
      match q.item
      case Registration(_, _, _, _, _) => r := RegisterLineage(q.item, q.authorizedAt, q.receivedAt);
      case Delegation(_, _, _) => r := RegisterDelegation(q.item, q.authorizedAt, q.receivedAt);
      case Revocation(_, _, _, _, _, _) => r := RevokeDelegation(q.item, q.authorizedAt, q.receivedAt);
      case Rotation(_, _, _, _, _, _, _, _, _) => r := RotateLineageKey(q.item, q.authorizedAt, q.receivedAt);
      case Acknowledgement(_, _, _, _, _, _) => r := Acknowledge(q.item, q.authorizedAt, q.receivedAt);
      case Contribution(_, _, _, _, _, _, _) => r := AcceptContribution(q.item, q.authorizedAt, q.receivedAt, false);
      case Unauthored(_, _) => r := AppendUnauthored(q.item, q.authorizedAt, q.receivedAt);
    }
  }

  /** The importer's tables for one origin. */
  class RemoteTables {
    var log: seq<Event>
    var lineages: map<LineageId, FederatedLineage>
    var keys: map<LineageId, seq<KeyRow>>
    var delegations: map<DelegationId, DelegationRow>

    ghost function State(): Importer
      reads this
    {
      Importer(log, lineages, keys, delegations)
    }

    constructor ()
      ensures State() == EMPTY_IMPORTER && ImporterInv(State())
    {
      log, lineages, keys, delegations := [], map[], map[], map[];
    }

    /** `authorize_remote_delegation`. */
    method AuthorizeRemote(
      d: DelegationId, scope: Scope, createdAt: Time, receivedAt: Time)
      returns (row: Option<DelegationRow>)
      ensures row.Some? <==> RemotelyAuthorized(State(), d, scope, createdAt, receivedAt)
      ensures row.Some? ==> d in delegations && row.value == delegations[d]
    {
      if d !in delegations {
        return None;
      }
      var found := delegations[d];
      if found.revoked.Some? || createdAt < found.notBefore || createdAt > found.expiresAt
         || receivedAt > found.expiresAt + SKEW || scope !in found.scopes {
        return None;
      }
      return Some(found);
    }

    /** The key that must have signed for a lineage now. */
    method SigningKey(l: LineageId) returns (k: Option<Key>)
      ensures k == if l in lineages then Some(lineages[l].currentKey) else None
    {
      if l in lineages {
        return Some(lineages[l].currentKey);
      }
      return None;
    }

    /** The checks of `validate_and_project_remote_event` on a lineage's own statements. */
    method CheckAuthority(e: Event) returns (ok: bool)
      requires e.item.Registration? || e.item.Delegation? || e.item.Revocation? || e.item.Rotation?
      ensures ok <==> Admits(State(), e)
    {
      match e.item
      case Registration(wellFormed, k, createdAt, _, signer) =>
        ok := wellFormed && Metadata(e, None, None, createdAt) && Timely(createdAt, e.receivedAt)
          && signer == Some(k) && !KeyUsed(keys, k)
          && LineageIdOf(k) !in lineages && forall l :: l in lineages ==> lineages[l].currentKey != k;
      case Delegation(wellFormed, t, signer) =>
        var key := SigningKey(t.lineage);
        ok := wellFormed && Metadata(e, Some(t.lineage), None, t.notBefore) && ValidTerms(t, e.receivedAt)
          && key.Some? && signer == key && DelegationIdOf(t) !in delegations;
      case Revocation(wellFormed, l, d, createdAt, _, signer) =>
        var key := SigningKey(l);
        ok := wellFormed && Metadata(e, Some(l), None, createdAt) && Timely(createdAt, e.receivedAt)
          && key.Some? && signer == key
          && d in delegations && delegations[d].lineage == l && delegations[d].revoked.None?;
      case Rotation(wellFormed, l, previous, next, _, createdAt, _, previousSigner, newSigner) =>
        var key := SigningKey(l);
        ok := wellFormed && Metadata(e, Some(l), None, createdAt) && Timely(createdAt, e.receivedAt)
          && key == Some(previous) && previous != next
          && previousSigner == Some(previous) && newSigner == Some(next) && !KeyUsed(keys, next);
    }

    /** `validate_remote_ack_cursor`: from the last stored acknowledgement of the lineage. */
    method CheckCursor(l: LineageId, cursor: int) returns (ok: bool)
      ensures ok <==> RemoteAckOk(State(), l, cursor)
    {
      if cursor < 0 || cursor > |log| {
        return false;
      }
      var n := |log|;
      assert log[..n] == log;
      while n > 0 && !IsAck(log[n - 1], l)
        invariant 0 <= n <= |log| && LastAck(log, l) == LastAck(log[..n], l)
      {
        assert log[..n][..n - 1] == log[..n - 1];
        n := n - 1;
      }
      if n == 0 {
        return true;
      }
      var named := log[n - 1].item.cursor;
      return (if named == n - 1 then n else named) <= cursor;
    }

    /** The checks on what a session key signed, or nobody. */
    method CheckSession(e: Event) returns (ok: bool)
      requires e.item.Acknowledgement? || e.item.Contribution? || e.item.Unauthored?
      ensures ok <==> Admits(State(), e)
    {
      match e.item
      case Acknowledgement(wellFormed, d, cursor, createdAt, _, signer) =>
        if !wellFormed || !Timely(createdAt, e.receivedAt) {
          return false;
        }
        var row := AuthorizeRemote(d, ACK_SCOPE, createdAt, e.receivedAt);
        if row.None? || !Metadata(e, Some(row.value.lineage), Some(d), createdAt) {
          return false;
        }
        ok := CheckCursor(row.value.lineage, cursor);
        ok := ok && signer == Some(row.value.sessionKey);
      case Contribution(wellFormed, d, scope, createdAt, _, _, signer) =>
        if !wellFormed || !Timely(createdAt, e.receivedAt) {
          return false;
        }
        var row := AuthorizeRemote(d, scope, createdAt, e.receivedAt);
        ok := row.Some? && Metadata(e, Some(row.value.lineage), Some(d), createdAt) &&
          signer == Some(row.value.sessionKey);
      case Unauthored(_, createdAt) => ok := Metadata(e, None, None, createdAt) && Timely(createdAt, e.receivedAt);
    }

    /** The projection of an admitted event. */
    method Project(e: Event)
      requires Admits(State(), e)
      modifies this
      ensures State() == Projected(old(State()), e)
    {
      var n := |log| + 1;
      log := log + [e];
      match e.item
      case Registration(_, k, _, _, _) =>
        var l := LineageIdOf(k);
        lineages := lineages[l := FederatedLineage(k, 0)];
        keys := keys[l := RowsOf(keys, l) + [KeyRow(0, k, n, None)]];
      case Delegation(_, t, _) => delegations := delegations[DelegationIdOf(t) := RowOf(t, n)];
      case Revocation(_, _, d, _, _, _) => delegations := delegations[d := delegations[d].(revoked := Some(n))];
      case Rotation(_, l, _, next, revoke, _, _, _, _) =>
        var version := lineages[l].version + 1;
        lineages := lineages[l := FederatedLineage(next, version)];
        keys := keys[l := CloseRows(RowsOf(keys, l), n) + [KeyRow(version, next, n, None)]];
        if revoke {
          delegations := RevokeAll(delegations, l, n);
        }
      case _ =>
    }

    /**
      `validate_and_project_remote_event`, on a log that anybody may have
      written.  A refusal changes nothing; what is let in is what an origin with
      these tables would itself accept, and it keeps key histories tiling, keys
      unused twice and delegations owned.
    */
    method ImportEvent(e: Event) returns (ok: bool)
      requires ImporterInv(State())
      modifies this
      ensures ImporterInv(State())
      ensures ok ==> Accepts(AsOrigin(old(State())), e.item, e.receivedAt)
      ensures ok <==> Replay(old(State()), e).Some?
      ensures State() == if ok then Replay(old(State()), e).value else old(State())
    {
      if e.item.Registration? || e.item.Delegation? || e.item.Revocation? || e.item.Rotation? {
        ok := CheckAuthority(e);
      } else {
        ok := CheckSession(e);
      }
      if !ok || Repeats(log, e) {
        return false;
      }
      AdmitsMeansAccepts(State(), e);
      ReplayKeepsInv(State(), e);
      Project(e);
    }

    /**
      The import loop over a fetched page, one transaction: it stops at the first
      refusal and then keeps nothing of the page.
    */
    method ImportLog(events: seq<Event>) returns (ok: bool)
      requires ImporterInv(State())
      modifies this
      ensures ImporterInv(State())
      ensures ok <==> ReplayAll(old(State()), events).Some?
      ensures State() == if ok then ReplayAll(old(State()), events).value else old(State())
    {
      ghost var before := State();
      var log0, lineages0, keys0, delegations0 := log, lineages, keys, delegations;
      var i := 0;
      while i < |events|
        invariant 0 <= i <= |events| && ImporterInv(State())
        invariant ReplayAll(before, events[..i]) == Some(State())
      {
        var accepted := ImportEvent(events[i]);
        assert events[..i + 1][..i] == events[..i];
        if !accepted {
          RefusalIsFinal(before, events, i + 1);
          log, lineages, keys, delegations := log0, lineages0, keys0, delegations0;
          return false;
        }
        i := i + 1;
      }
      assert events[..i] == events;
      return true;
    }
  }

  /** Once an event is refused no longer log is accepted. */
  lemma {:induction false} RefusalIsFinal(r: Importer, events: seq<Event>, k: nat)
    requires k <= |events| && ReplayAll(r, events[..k]).None?
    ensures ReplayAll(r, events).None?
  {
    ReplayConcat(r, events[..k], events[k..]);
    assert events[..k] + events[k..] == events;
  }

  /**
    The two sides against each other: an origin serves any requests, and an
    importer takes its log in two pages cut anywhere.  The importer ends with
    the origin's keys, versions, intervals and delegations exactly if no
    accepted object straddled its delegation's expiry.
  */
  method RunAndImport(qs: seq<Request>, cut: nat) returns (origin: OriginTables, remote: RemoteTables, ok: bool)
    requires forall k :: 0 <= k < |qs| ==> qs[k].authorizedAt <= qs[k].receivedAt
    ensures origin.State() == Serve(qs) && OriginInv(origin.State())
    ensures ok <==> NeverStraddles(qs)
    ensures ok ==> Agrees(origin.State(), remote.State())
    ensures ImporterInv(remote.State())
  {
    origin := new OriginTables();
    var i := 0;
    while i < |qs|
      invariant 0 <= i <= |qs| && fresh(origin)
      invariant OriginInv(origin.State()) && origin.State() == Serve(qs[..i])
    {
      var _ := origin.Handle(qs[i]);
      assert qs[..i + 1][..i] == qs[..i];
      i := i + 1;
    }
    assert qs[..i] == qs;
    ReplayBisimulates(qs);
    remote := new RemoteTables();
    var page := Min(cut, |origin.log|);
    ReplayConcat(EMPTY_IMPORTER, origin.log[..page], origin.log[page..]);
    assert origin.log[..page] + origin.log[page..] == origin.log;
    ok := remote.ImportLog(origin.log[..page]);
    if ok {
      ok := remote.ImportLog(origin.log[page..]);
    }
  }
}
