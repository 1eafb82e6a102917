/**
  Who may write: lineages, their rotating keys, delegations and
  acknowledgements.  The origin checks each signed object against its own
  tables before appending it (src/service.rs, src/db.rs); an importer derives
  the same tables again from the log alone (src/db.rs).  This module holds the
  two state machines; AuthorityReplay relates them.

  Times are integer milliseconds.  A signature is the key that made it.
*/
module Authority {
  import opened Common

  type Key = nat
  type Time = int
  type Scope = string

  const SKEW: int := 5 * 60 * 1000
  const MAX_DELEGATION: int := 30 * 24 * 60 * 60 * 1000
  const ACK_SCOPE: Scope := "ack"

  /** The `cwlin_` identifier derived from the first key. */
  datatype LineageId = LineageIdOf(key: Key)

  datatype Terms = Terms(
    lineage: LineageId, sessionKey: Key, scopes: seq<Scope>, notBefore: Time, expiresAt: Time, nonce: string)

  /** The `cwdel_` identifier derived from a delegation without its signature. */
  datatype DelegationId = DelegationIdOf(terms: Terms)

  /**
    A signed object.  `wellFormed` stands for the stateless checks both sides
    share: protocol version, nonce, reason, display name, lists.  `Unauthored`
    objects are observations and checkpoint witnesses.
  */
  datatype Object =
    | Registration(wellFormed: bool, publicKey: Key, createdAt: Time, nonce: string, signer: Option<Key>)
    | Delegation(wellFormed: bool, terms: Terms, signer: Option<Key>)
    | Revocation(
      wellFormed: bool, lineage: LineageId, delegation: DelegationId, createdAt: Time, nonce: string,
      signer: Option<Key>)
    | Rotation(wellFormed: bool, lineage: LineageId, previousKey: Key, newKey: Key, revokeExisting: bool,
               createdAt: Time, nonce: string, previousSigner: Option<Key>, newSigner: Option<Key>)
    | Acknowledgement(
      wellFormed: bool, delegation: DelegationId, cursor: int, createdAt: Time, nonce: string, signer: Option<Key>)
    | Contribution(
      wellFormed: bool, delegation: DelegationId, scope: Scope, createdAt: Time, nonce: string, body: nat,
      signer: Option<Key>)
    | Unauthored(body: nat, createdAt: Time)

  datatype Event = Event(
    lineage: Option<LineageId>, delegation: Option<DelegationId>, createdAt: Time, receivedAt: Time, item: Object)

  datatype KeyRow = KeyRow(version: int, publicKey: Key, validFrom: int, validTo: Option<int>)

  datatype DelegationRow = DelegationRow(
    lineage: LineageId, sessionKey: Key, scopes: seq<Scope>, notBefore: Time, expiresAt: Time,
    registered: int, revoked: Option<int>)

  /** The origin's tables; `keys` holds each lineage's `lineage_keys` rows in insertion order. */
  datatype Origin = Origin(
    log: seq<Event>, lineages: map<LineageId, Key>, keys: map<LineageId, seq<KeyRow>>,
    delegations: map<DelegationId, DelegationRow>, nonces: set<(LineageId, string)>, acks: map<LineageId, int>)

  datatype FederatedLineage = FederatedLineage(currentKey: Key, version: int)

  /** The importer's tables for one origin. */
  datatype Importer = Importer(
    log: seq<Event>, lineages: map<LineageId, FederatedLineage>, keys: map<LineageId, seq<KeyRow>>,
    delegations: map<DelegationId, DelegationRow>)

  const EMPTY_ORIGIN := Origin([], map[], map[], map[], {}, map[])
  const EMPTY_IMPORTER := Importer([], map[], map[], map[])

  // ------------------------------------------------------------ shared checks

  predicate Timely(createdAt: Time, acceptedAt: Time)
  {
    createdAt <= acceptedAt + SKEW
  }

  predicate Distinct(scopes: seq<Scope>)
  {
    forall i, j :: 0 <= i < j < |scopes| ==> scopes[i] != scopes[j]
  }

  /** `validate_delegation_at`. */
  predicate ValidTerms(t: Terms, acceptedAt: Time)
  {
    && t.scopes != [] && Distinct(t.scopes)
    && t.notBefore < t.expiresAt <= t.notBefore + MAX_DELEGATION
    && Timely(t.notBefore, acceptedAt)
  }

  predicate KeyUsed(keys: map<LineageId, seq<KeyRow>>, k: Key)
  {
    exists l, i | l in keys && 0 <= i < |keys[l]| :: keys[l][i].publicKey == k
  }

  function NonceOf(x: Object): Option<string>
  {
    match x
    case Registration(_, _, _, nonce, _) => Some(nonce)
    case Delegation(_, terms, _) => Some(terms.nonce)
    case Revocation(_, _, _, _, nonce, _) => Some(nonce)
    case Rotation(_, _, _, _, _, _, nonce, _, _) => Some(nonce)
    case Acknowledgement(_, _, _, _, nonce, _) => Some(nonce)
    case Contribution(_, _, _, _, nonce, _, _) => Some(nonce)
    case Unauthored(_, _) => None
  }

  /** The uniqueness constraints of the event tables: content id, and nonce per delegation. */
  predicate Repeats(log: seq<Event>, e: Event)
  {
    exists i :: 0 <= i < |log| &&
      (log[i].item == e.item ||
        (e.delegation.Some? && log[i].delegation == e.delegation && NonceOf(log[i].item) == NonceOf(e.item)))
  }

  /** `UPDATE … SET valid_to_sequence = s WHERE valid_to_sequence IS NULL`. */
  function CloseRows(rows: seq<KeyRow>, s: int): seq<KeyRow>
  {
    seq(|rows|, i requires 0 <= i < |rows| => if rows[i].validTo.None? then rows[i].(validTo := Some(s)) else rows[i])
  }

  /** `UPDATE … SET revoked_sequence = s WHERE lineage_id = l AND revoked_sequence IS NULL`. */
  function RevokeAll(rows: map<DelegationId, DelegationRow>, l: LineageId, s: int): map<DelegationId, DelegationRow>
  {
    map d | d in rows :: if rows[d].lineage == l && rows[d].revoked.None? then rows[d].(revoked := Some(s)) else rows[d]
  }

  function RowOf(t: Terms, s: int): DelegationRow
  {
    DelegationRow(t.lineage, t.sessionKey, t.scopes, t.notBefore, t.expiresAt, s, None)
  }

  function RowsOf(keys: map<LineageId, seq<KeyRow>>, l: LineageId): seq<KeyRow>
  {
    if l in keys then keys[l] else []
  }

  // --------------------------------------------------------------- the origin

  /** `SELECT COALESCE(MAX(key_version), -1)`. */
  function MaxVersion(rows: seq<KeyRow>): int
  {
    if rows == [] then -1
    else
      var rest := MaxVersion(rows[..|rows| - 1]);
      var v := rows[|rows| - 1].version;
      if v > rest then v else rest
  }

  /** A lineage's rows after a rotation at event `n`: the open row closed, the next version opened. */
  function Rotated(rows: seq<KeyRow>, next: Key, n: int): seq<KeyRow>
  {
    CloseRows(rows, n) + [KeyRow(MaxVersion(rows) + 1, next, n, None)]
  }

  /** `authorize_delegation`, at the clock reading `now`. */
  predicate Authorized(s: Origin, d: DelegationId, scope: Scope, createdAt: Time, now: Time)
  {
    && d in s.delegations
    && var row := s.delegations[d];
    && row.revoked.None?
    && row.notBefore <= createdAt <= row.expiresAt
    && now <= row.expiresAt + SKEW
    && Timely(createdAt, now)
    && scope in row.scopes
  }

  function AckedCursor(s: Origin, l: LineageId): int
  {
    if l in s.acks then s.acks[l] else 0
  }

  /** Whether the origin accepts an object when its clock reads `now`. */
  predicate Accepts(s: Origin, x: Object, now: Time)
  {
    match x
    case Registration(ok, k, createdAt, _, signer) =>
      && ok && Timely(createdAt, now) && signer == Some(k)
      && LineageIdOf(k) !in s.lineages && k !in s.lineages.Values && !KeyUsed(s.keys, k)
    case Delegation(ok, t, signer) =>
      && ok && ValidTerms(t, now)
      && t.lineage in s.lineages && signer == Some(s.lineages[t.lineage])
      && DelegationIdOf(t) !in s.delegations && (t.lineage, t.nonce) !in s.nonces
    case Revocation(ok, l, d, createdAt, _, signer) =>
      && ok && Timely(createdAt, now)
      && l in s.lineages && signer == Some(s.lineages[l])
      && d in s.delegations && s.delegations[d].lineage == l && s.delegations[d].revoked.None?
    case Rotation(ok, l, previous, new_, _, createdAt, _, previousSigner, newSigner) =>
      && ok && Timely(createdAt, now) && previous != new_
      && l in s.lineages && s.lineages[l] == previous
      && previousSigner == Some(previous) && newSigner == Some(new_)
      && !KeyUsed(s.keys, new_)
    case Acknowledgement(ok, d, cursor, createdAt, _, signer) =>
      && ok && 0 <= cursor
      && Authorized(s, d, ACK_SCOPE, createdAt, now) && signer == Some(s.delegations[d].sessionKey)
      && AckedCursor(s, s.delegations[d].lineage) <= cursor <= |s.log|
    case Contribution(ok, d, scope, createdAt, _, _, signer) =>
      && ok && Authorized(s, d, scope, createdAt, now) && signer == Some(s.delegations[d].sessionKey)
    // the node itself stamps these from its clock
    case Unauthored(_, createdAt) => Timely(createdAt, now)
  }

  /** The event appended for an accepted object. */
  function EventFor(s: Origin, x: Object, receivedAt: Time): Event
  {
    match x
    case Registration(_, _, createdAt, _, _) => Event(None, None, createdAt, receivedAt, x)
    case Delegation(_, t, _) => Event(Some(t.lineage), None, t.notBefore, receivedAt, x)
    case Revocation(_, l, _, createdAt, _, _) => Event(Some(l), None, createdAt, receivedAt, x)
    case Rotation(_, l, _, _, _, createdAt, _, _, _) => Event(Some(l), None, createdAt, receivedAt, x)
    case Acknowledgement(_, d, _, createdAt, _, _) =>
      Event(if d in s.delegations then Some(s.delegations[d].lineage) else None, Some(d), createdAt, receivedAt, x)
    case Contribution(_, d, _, createdAt, _, _, _) =>
      Event(if d in s.delegations then Some(s.delegations[d].lineage) else None, Some(d), createdAt, receivedAt, x)
    case Unauthored(_, createdAt) => Event(None, None, createdAt, receivedAt, x)
  }

  /** The tables after an accepted object became event number `|s.log| + 1`. */
  function Updated(s: Origin, x: Object, receivedAt: Time): Origin
    requires x.Rotation? ==> x.lineage in s.lineages
    requires x.Revocation? ==> x.delegation in s.delegations
    requires x.Acknowledgement? ==> x.delegation in s.delegations
  {
    var n := |s.log| + 1;
    var s' := s.(log := s.log + [EventFor(s, x, receivedAt)]);
    match x
    case Registration(_, k, _, _, _) =>
      var l := LineageIdOf(k);
      s'.(lineages := s.lineages[l := k], keys := s.keys[l := RowsOf(s.keys, l) + [KeyRow(0, k, n, None)]])
    case Delegation(_, t, _) =>
      s'.(delegations := s.delegations[DelegationIdOf(t) := RowOf(t, n)], nonces := s.nonces + {(t.lineage, t.nonce)})
    case Revocation(_, _, d, _, _, _) =>
      s'.(delegations := s.delegations[d := s.delegations[d].(revoked := Some(n))])
    case Rotation(_, l, _, new_, revoke, _, _, _, _) =>
      s'.(lineages := s.lineages[l := new_],
          keys := s.keys[l := Rotated(RowsOf(s.keys, l), new_, n)],
          delegations := if revoke then RevokeAll(s.delegations, l, n) else s.delegations)
    case Acknowledgement(_, d, cursor, _, _, _) =>
      s'.(acks := s.acks[s.delegations[d].lineage := if cursor == |s.log| then n else cursor])
    case Contribution(_, _, _, _, _, _, _) => s'
    case Unauthored(_, _) => s'
  }

  /** A request to the origin: authorised at one clock reading, stamped at another no earlier. */
  datatype Request = Request(item: Object, authorizedAt: Time, receivedAt: Time)

  /** Whether the request changes anything; a rejected one does not. */
  predicate Succeeds(s: Origin, q: Request)
  {
    Accepts(s, q.item, q.authorizedAt) && !Repeats(s.log, EventFor(s, q.item, q.receivedAt))
  }

  function Submit(s: Origin, q: Request): Origin
  {
    if Succeeds(s, q) then Updated(s, q.item, q.receivedAt) else s
  }

  // ------------------------------------------------------------- the importer

  /** `authorize_remote_delegation`. */
  predicate RemotelyAuthorized(r: Importer, d: DelegationId, scope: Scope, createdAt: Time, receivedAt: Time)
  {
    && d in r.delegations
    && var row := r.delegations[d];
    && row.revoked.None?
    && row.notBefore <= createdAt <= row.expiresAt
    && receivedAt <= row.expiresAt + SKEW
    && scope in row.scopes
  }

  /** The last acknowledgement event of a lineage, as (sequence, named cursor). */
  function LastAck(log: seq<Event>, l: LineageId): Option<(int, int)>
  {
    if log == [] then None
    else
      var e := log[|log| - 1];
      if e.item.Acknowledgement? && e.lineage == Some(l) then Some((|log|, e.item.cursor))
      else LastAck(log[..|log| - 1], l)
  }

  function Effective(ack: (int, int)): int
  {
    if ack.1 == ack.0 - 1 then ack.0 else ack.1
  }

  /** `validate_remote_ack_cursor`. */
  predicate RemoteAckOk(r: Importer, l: LineageId, cursor: int)
  {
    && 0 <= cursor <= |r.log|
    && (LastAck(r.log, l).Some? ==> Effective(LastAck(r.log, l).value) <= cursor)
  }

  predicate Metadata(e: Event, l: Option<LineageId>, d: Option<DelegationId>, createdAt: Time)
  {
    e.lineage == l && e.delegation == d && e.createdAt == createdAt
  }

  predicate CurrentKey(r: Importer, k: Key)
  {
    exists l :: l in r.lineages && r.lineages[l].currentKey == k
  }

  /** `validate_and_project_remote_event`, as far as authority goes: does it let the event through? */
  predicate Admits(r: Importer, e: Event)
  {
    match e.item
    case Registration(ok, k, createdAt, _, signer) =>
      && ok && Metadata(e, None, None, createdAt) && Timely(createdAt, e.receivedAt) && signer == Some(k)
      && !KeyUsed(r.keys, k)
      && LineageIdOf(k) !in r.lineages && !CurrentKey(r, k)
    case Delegation(ok, t, signer) =>
      && ok && Metadata(e, Some(t.lineage), None, t.notBefore) && ValidTerms(t, e.receivedAt)
      && t.lineage in r.lineages && signer == Some(r.lineages[t.lineage].currentKey)
      && DelegationIdOf(t) !in r.delegations
    case Revocation(ok, l, d, createdAt, _, signer) =>
      && ok && Metadata(e, Some(l), None, createdAt) && Timely(createdAt, e.receivedAt)
      && l in r.lineages && signer == Some(r.lineages[l].currentKey)
      && d in r.delegations && r.delegations[d].lineage == l && r.delegations[d].revoked.None?
    case Rotation(ok, l, previous, new_, _, createdAt, _, previousSigner, newSigner) =>
      && ok && Metadata(e, Some(l), None, createdAt) && Timely(createdAt, e.receivedAt)
      && l in r.lineages && r.lineages[l].currentKey == previous && previous != new_
      && previousSigner == Some(previous) && newSigner == Some(new_)
      && !KeyUsed(r.keys, new_)
    case Acknowledgement(ok, d, cursor, createdAt, _, signer) =>
      && ok && Timely(createdAt, e.receivedAt)
      && RemotelyAuthorized(r, d, ACK_SCOPE, createdAt, e.receivedAt)
      && Metadata(e, Some(r.delegations[d].lineage), Some(d), createdAt)
      && RemoteAckOk(r, r.delegations[d].lineage, cursor)
      && signer == Some(r.delegations[d].sessionKey)
    case Contribution(ok, d, scope, createdAt, _, _, signer) =>
      && ok && Timely(createdAt, e.receivedAt)
      && RemotelyAuthorized(r, d, scope, createdAt, e.receivedAt)
      && Metadata(e, Some(r.delegations[d].lineage), Some(d), createdAt)
      && signer == Some(r.delegations[d].sessionKey)
    case Unauthored(_, createdAt) => Metadata(e, None, None, createdAt) && Timely(createdAt, e.receivedAt)
  }

  /** The importer's tables after it took in event number `|r.log| + 1`. */
  function Projected(r: Importer, e: Event): Importer
    requires e.item.Rotation? ==> e.item.lineage in r.lineages
    requires e.item.Revocation? ==> e.item.delegation in r.delegations
  {
    var n := |r.log| + 1;
    var r' := r.(log := r.log + [e]);
    match e.item
    case Registration(_, k, _, _, _) =>
      var l := LineageIdOf(k);
      r'.(lineages := r.lineages[l := FederatedLineage(k, 0)],
          keys := r.keys[l := RowsOf(r.keys, l) + [KeyRow(0, k, n, None)]])
    case Delegation(_, t, _) => r'.(delegations := r.delegations[DelegationIdOf(t) := RowOf(t, n)])
    case Revocation(_, _, d, _, _, _) => r'.(delegations := r.delegations[d := r.delegations[d].(revoked := Some(n))])
    case Rotation(_, l, _, new_, revoke, _, _, _, _) =>
      var version := r.lineages[l].version + 1;
      r'.(lineages := r.lineages[l := FederatedLineage(new_, version)],
          keys := r.keys[l := CloseRows(RowsOf(r.keys, l), n) + [KeyRow(version, new_, n, None)]],
          delegations := if revoke then RevokeAll(r.delegations, l, n) else r.delegations)
    case Acknowledgement(_, _, _, _, _, _) => r'
    case Contribution(_, _, _, _, _, _, _) => r'
    case Unauthored(_, _) => r'
  }

  /** Import of one event: `None` if it is refused. */
  function Replay(r: Importer, e: Event): Option<Importer>
  {
    if Admits(r, e) && !Repeats(r.log, e) then Some(Projected(r, e)) else None
  }

  function ReplayAll(r: Importer, log: seq<Event>): Option<Importer>
  {
    if log == [] then Some(r)
    else
      var before := ReplayAll(r, log[..|log| - 1]);
      if before.None? then None else Replay(before.value, log[|log| - 1])
  }
}
