/**
  Outbound publication (src/publication.rs, src/db.rs): a node sends its log to
  the relays it chose, stores what each has acknowledged with a signed receipt,
  and derives from that whether its log is replicated widely enough.

  Times are integer milliseconds.
*/
module Publication {
  import opened Common
  import opened Chain
  import Replica
  import Relay

  const DAY: int := 24 * 60 * 60 * 1000

  /** `signer` is the key whose signature the receipt carries. */
  datatype Receipt = Receipt(
    protocol: string, checkpoint: Checkpoint, relayId: NodeId, relayKey: PublicKey, signer: Option<PublicKey>)

  /** A row of `publication_targets`. */
  datatype Target = Target(
    relayId: Option<NodeId>, relayKey: Option<PublicKey>, cursor: int, eventHash: HashText, receipt: Option<Receipt>,
    lastSuccess: Option<int>, failures: nat, nextAttempt: Option<int>)

  const NEW_TARGET := Target(None, None, 0, ZERO_HASH, None, None, 0, None)

  datatype Work = Open | Complete

  datatype Status = Unconfigured | Replicated | Unreplicated | Degraded

  datatype Pub = Pub(
    key: PublicKey, log: seq<OriginEvent>, targets: map<string, Target>, desired: int, work: Option<Work>)

  datatype Health = Health(status: Status, confirmed: nat, recent: nat)

  // ------------------------------------------------------------ state machine

  /** `verify_replication_receipt`. */
  predicate ValidReceipt(r: Receipt)
  {
    && r.protocol == PROTOCOL_VERSION
    && ValidCheckpoint(r.checkpoint)
    && r.checkpoint.cursor >= 0 && r.checkpoint.eventHash.Hex?
    && (r.checkpoint.cursor == 0 ==> r.checkpoint.eventHash == ZERO_HASH)
    && r.relayKey.Ed25519? && r.relayId == NodeIdOf(r.relayKey)
    && r.relayId != r.checkpoint.nodeId
    && r.signer == Some(r.relayKey)
  }

  /** The checkpoint's hash is the one this node's log has at that cursor. */
  predicate OnChain(log: seq<OriginEvent>, cursor: int, hash: HashText)
  {
    0 <= cursor <= |log| && HashTextAt(log, cursor) == hash
  }

  /** Everything `record_publication_success` checks. */
  predicate Acknowledges(s: Pub, endpoint: string, r: Receipt)
  {
    && ValidReceipt(r)
    && r.checkpoint.nodeId == NodeIdOf(s.key) && r.checkpoint.publicKey == s.key
    && OnChain(s.log, r.checkpoint.cursor, r.checkpoint.eventHash)
    && endpoint in s.targets
    && var t := s.targets[endpoint];
    && (t.relayId.Some? ==> t.relayId.value == r.relayId)
    && (t.relayKey.Some? ==> t.relayKey.value == r.relayKey)
    && t.cursor <= r.checkpoint.cursor
    && (t.cursor == r.checkpoint.cursor ==> t.eventHash == r.checkpoint.eventHash)
  }

  function Acknowledged(r: Receipt, now: int): Target
  {
    Target(Some(r.relayId), Some(r.relayKey), r.checkpoint.cursor, r.checkpoint.eventHash, Some(r), Some(now), 0, None)
  }

  /** The distinct relays `refresh_replication_work` counts. */
  function ConfirmedRelays(s: Pub, recentAfter: int): set<NodeId>
  {
    set e | e in s.targets && Confirms(s, s.targets[e], recentAfter) :: s.targets[e].relayId.value
  }

  predicate Confirms(s: Pub, t: Target, recentAfter: int)
  {
    && t.receipt.Some? && t.cursor == |s.log| && t.eventHash == HashTextAt(s.log, |s.log|)
    && t.lastSuccess.Some? && t.lastSuccess.value >= recentAfter
    && t.relayId.Some?
  }

  /** `refresh_replication_work`. */
  function Refreshed(s: Pub, now: int): Pub
  {
    s.(work := Some(if |ConfirmedRelays(s, now - DAY)| >= s.desired then Complete else Open))
  }

  datatype Step =
    | Append(event: OriginEvent)
    | Configure(endpoint: string, now: int)
    | SetDesired(replicas: nat, now: int)
    | Success(endpoint: string, receipt: Receipt, now: int)
    | Failure(endpoint: string, next: int, now: int)

  predicate Succeeds(s: Pub, step: Step)
  {
    match step
    case Append(_) => true
    case Configure(endpoint, _) => 0 < |endpoint| <= 2048
    case SetDesired(n, _) => 1 <= n <= 16
    case Success(endpoint, r, _) => Acknowledges(s, endpoint, r)
    case Failure(endpoint, _, _) => endpoint in s.targets
  }

  /** What an accepted step writes, before the work item is refreshed. */
  function Changed(s: Pub, step: Step): Pub
    requires Succeeds(s, step)
  {
    match step
    case Append(e) => s.(log := s.log + [e])
    case Configure(endpoint, _) => if endpoint in s.targets then s else s.(targets := s.targets[endpoint := NEW_TARGET])
    case SetDesired(n, _) => s.(desired := n)
    case Success(endpoint, r, now) => s.(targets := s.targets[endpoint := Acknowledged(r, now)])
    case Failure(endpoint, next, _) =>
      var t := s.targets[endpoint];
      s.(targets := s.targets[endpoint := t.(failures := t.failures + 1, nextAttempt := Some(next))])
  }

  function Next(s: Pub, step: Step): Pub
  {
    if !Succeeds(s, step) then s
    else if step.Append? then Changed(s, step)
    else Refreshed(Changed(s, step), step.now)
  }

  // ------------------------------------------------------------------ safety

  /** The acknowledged head is on the local chain and is the one its receipt states. */
  predicate TargetOk(key: PublicKey, log: seq<OriginEvent>, t: Target)
  {
    && OnChain(log, t.cursor, t.eventHash)
    && (t.relayId.Some? <==> t.receipt.Some?) && (t.relayKey.Some? <==> t.receipt.Some?)
    && ReceiptMatches(key, t)
  }

  /** The consistency test `replication_health` applies to a stored row. */
  predicate ReceiptMatches(key: PublicKey, t: Target)
  {
    t.receipt.Some? ==>
      var r := t.receipt.value;
      && ValidReceipt(r)
      && r.checkpoint.nodeId == NodeIdOf(key) && r.checkpoint.publicKey == key
      && t.relayId == Some(r.relayId) && t.relayKey == Some(r.relayKey)
      && t.cursor == r.checkpoint.cursor && t.eventHash == r.checkpoint.eventHash
  }

  ghost predicate Inv(s: Pub)
  {
    s.desired >= 1 && forall e :: e in s.targets ==> TargetOk(s.key, s.log, s.targets[e])
  }

  /** A later row of the same target: no regress, and once known the relay stays the same. */
  predicate Advances(t: Target, u: Target)
  {
    && t.cursor <= u.cursor
    && (t.cursor == u.cursor ==> t.eventHash == u.eventHash)
    && (t.relayId.Some? ==> u.relayId == t.relayId && u.relayKey == t.relayKey)
  }

  ghost predicate Follows(s: Pub, s': Pub)
  {
    && s'.key == s.key && s.log <= s'.log
    && forall e :: e in s.targets ==> e in s'.targets && Advances(s.targets[e], s'.targets[e])
  }

  lemma {:induction false} ChangedIsSound(s: Pub, step: Step, e: string)
    requires Inv(s) && Succeeds(s, step)
    ensures var s' := Changed(s, step);
      && (e in s'.targets ==> TargetOk(s.key, s'.log, s'.targets[e]))
      && (e in s.targets ==> e in s'.targets && Advances(s.targets[e], s'.targets[e]))
  {
    assert e in s.targets ==> TargetOk(s.key, s.log, s.targets[e]);
  }

  lemma {:induction false} StepKeepsInv(s: Pub, step: Step)
    requires Inv(s)
    ensures Inv(Next(s, step)) && Follows(s, Next(s, step))
  {
    if Succeeds(s, step) {
      forall e {
        ChangedIsSound(s, step, e);
      }
    }
  }

  function Run(s: Pub, steps: seq<Step>): Pub
  {
    if steps == [] then s else Next(Run(s, steps[..|steps| - 1]), steps[|steps| - 1])
  }

  /**
    In every run each target's acknowledged head lies on the local chain, never
    regresses from one moment `k` to a later one, and keeps its relay identity.
  */
  lemma {:induction false} RunIsSound(s: Pub, steps: seq<Step>, k: nat)
    requires Inv(s) && k <= |steps|
    ensures Inv(Run(s, steps)) && Follows(Run(s, steps[..k]), Run(s, steps))
    decreases |steps|
  {
    if steps != [] {
      var front := steps[..|steps| - 1];
      RunIsSound(s, front, if k < |steps| then k else 0);
      StepKeepsInv(Run(s, front), steps[|steps| - 1]);
      if k < |steps| {
        assert front[..k] == steps[..k];
        FollowsTransitive(Run(s, steps[..k]), Run(s, front), Run(s, steps));
      } else {
        assert steps[..k] == steps;
      }
    }
  }

  lemma {:induction false} FollowsTransitive(a: Pub, b: Pub, c: Pub)
    requires Follows(a, b) && Follows(b, c)
    ensures Follows(a, c)
  {
    forall e | e in a.targets
      ensures e in c.targets && Advances(a.targets[e], c.targets[e])
    {
      assert Advances(a.targets[e], b.targets[e]) && Advances(b.targets[e], c.targets[e]);
    }
  }

  // ------------------------------------------------------------------ health

  /** What `replication_health` reports when every stored receipt matches its row. */
  function HealthOf(s: Pub, now: int): Health
  {
    var confirmed, recent := Relays(s, None), Relays(s, Some(now - DAY));
    Health(
      if s.targets == map[] then Unconfigured
      else if |recent| >= s.desired then Replicated
      else if recent == {} then Unreplicated
      else Degraded,
      |confirmed|, |recent|)
  }

  predicate AtHead(s: Pub, t: Target)
  {
    t.receipt.Some? && t.cursor == |s.log| && t.eventHash == HashTextAt(s.log, |s.log|)
  }

  predicate Counts(s: Pub, t: Target, since: Option<int>)
  {
    && AtHead(s, t) && t.relayId.Some?
    && (since.Some? ==> t.lastSuccess.Some? && t.lastSuccess.value >= since.value)
  }

  /** The distinct relays at the current head, or those among them that said so since a time. */
  function Relays(s: Pub, since: Option<int>): set<NodeId>
  {
    set e | e in s.targets && Counts(s, s.targets[e], since) :: s.targets[e].relayId.value
  }

  lemma {:induction false} RefreshAgrees(s: Pub, now: int)
    requires s.desired >= 1
    ensures var s' := Refreshed(s, now); s'.work == Some(Complete) <==> HealthOf(s', now).status == Replicated
  {
    var s' := Refreshed(s, now);
    assert ConfirmedRelays(s, now - DAY) == Relays(s', Some(now - DAY));
    if s'.targets == map[] {
      assert ConfirmedRelays(s, now - DAY) == {};
    }
  }

  /**
    Right after any step that refreshes the work item, it is complete exactly if
    the health report says "replicated".
  */
  lemma {:induction false} CompleteIffReplicated(s: Pub, step: Step)
    requires s.desired >= 1 && !step.Append? && Succeeds(s, step)
    ensures var s' := Next(s, step); s'.work == Some(Complete) <==> HealthOf(s', step.now).status == Replicated
  {
    RefreshAgrees(Changed(s, step), step.now);
  }

  /** The relay has signed for the current head at this endpoint, a day ago at most if `now` is given. */
  predicate HasHead(s: Pub, e: string, relay: NodeId, now: Option<int>)
  {
    && e in s.targets && s.targets[e].receipt.Some?
    && var t, c := s.targets[e], s.targets[e].receipt.value.checkpoint;
    && t.receipt.value.relayId == relay && t.receipt.value.signer == Some(t.receipt.value.relayKey)
    && c.cursor == |s.log| && c.eventHash == HashTextAt(s.log, |s.log|)
    && (now.Some? ==> t.lastSuccess.Some? && now.value - t.lastSuccess.value <= 86_400_000)
  }

  ghost predicate AreHolders(s: Pub, relays: set<NodeId>, now: Option<int>)
  {
    forall relay :: relay in relays <==> exists e :: HasHead(s, e, relay, now)
  }

  lemma {:induction false} RelaysAreHolders(s: Pub, now: Option<int>)
    requires Inv(s)
    ensures AreHolders(s, Relays(s, if now.Some? then Some(now.value - DAY) else None), now)
  {
    var since := if now.Some? then Some(now.value - DAY) else None;
    forall e, relay
      ensures HasHead(s, e, relay, now) <==>
        e in s.targets && Counts(s, s.targets[e], since) && s.targets[e].relayId.value == relay
    {
      assert e in s.targets ==> TargetOk(s.key, s.log, s.targets[e]);
    }
    forall relay | relay in Relays(s, since)
      ensures exists e :: HasHead(s, e, relay, now)
    {
      var e :| e in s.targets && Counts(s, s.targets[e], since) && s.targets[e].relayId.value == relay;
      assert HasHead(s, e, relay, now);
    }
  }

  lemma {:induction false} SameHolders(s: Pub, a: set<NodeId>, b: set<NodeId>, now: Option<int>)
    requires AreHolders(s, a, now) && AreHolders(s, b, now)
    ensures a == b
  {
    assert forall x :: x in a <==> x in b;
  }

  /**
    What the health report means: it counts the relays whose signed receipts
    name the current head, and those that said so within a day; no relay of
    that kind is unreplicated, fewer than desired is degraded.
  */
  lemma {:induction false} HealthMeans(s: Pub, now: int, holders: set<NodeId>, recent: set<NodeId>)
    requires Inv(s) && AreHolders(s, holders, None) && AreHolders(s, recent, Some(now))
    ensures var h := HealthOf(s, now);
      && h.confirmed == |holders| && h.recent == |recent|
      && (h.status == Unconfigured <==> |s.targets| == 0)
      && (h.status == Unreplicated <==> |s.targets| > 0 && |recent| == 0)
      && (h.status == Degraded <==> 0 < |recent| < s.desired)
      && (h.status == Replicated <==> |recent| >= s.desired)
  {
    RelaysAreHolders(s, None);
    RelaysAreHolders(s, Some(now));
    SameHolders(s, holders, Relays(s, None), None);
    SameHolders(s, recent, Relays(s, Some(now - DAY)), Some(now));
    if s.targets == map[] {
      assert recent == {};
    }
  }

  // ----------------------------------------------------------------- history

  /** What the run last recorded for an endpoint: the receipt, and when. */
  function LastReceipt(s: Pub, steps: seq<Step>, e: string): Option<(Receipt, int)>
  {
    if steps == [] then None
    else
      var front, last := steps[..|steps| - 1], steps[|steps| - 1];
      if last.Success? && last.endpoint == e && Succeeds(Run(s, front), last) then Some((last.receipt, last.now))
      else LastReceipt(s, front, e)
  }

  /** The failures recorded for an endpoint since then, and the retry time of the last of them. */
  function FailuresSince(s: Pub, steps: seq<Step>, e: string): (nat, Option<int>)
  {
    if steps == [] then (0, None)
    else
      var front, last := steps[..|steps| - 1], steps[|steps| - 1];
      var (n, next) := FailuresSince(s, front, e);
      if last.Success? && last.endpoint == e && Succeeds(Run(s, front), last) then (0, None)
      else if last.Failure? && last.endpoint == e && e in Run(s, front).targets then (n + 1, Some(last.next))
      else (n, next)
  }

  predicate ConfiguredIn(steps: seq<Step>, e: string)
  {
    exists k :: 0 <= k < |steps| && steps[k].Configure? && steps[k].endpoint == e && 0 < |e| <= 2048
  }

  predicate Unpublished(s: Pub)
  {
    s.targets == map[] && s.desired >= 1
  }

  ghost predicate RowIsHistory(s: Pub, steps: seq<Step>, e: string, t: Target)
  {
    var last := LastReceipt(s, steps, e);
    && (t.receipt.Some? <==> last.Some?)
    && (last.Some? ==> t.receipt == Some(last.value.0) && t.lastSuccess == Some(last.value.1))
    && (last.None? ==> t.lastSuccess.None? && t.cursor == 0)
    && (t.failures, t.nextAttempt) == FailuresSince(s, steps, e)
  }

  lemma {:induction false} UnconfiguredIsSilent(s: Pub, steps: seq<Step>, e: string)
    requires e !in Run(s, steps).targets
    ensures LastReceipt(s, steps, e).None? && FailuresSince(s, steps, e) == (0, None)
  {
    if steps != [] {
      UnconfiguredIsSilent(s, steps[..|steps| - 1], e);
    }
  }

  /**
    Every target row is the history of its endpoint: configured once, holding
    the last receipt the node recorded for it and when, and the failures since.
  */
  lemma {:induction false} TargetsAreHistory(s: Pub, steps: seq<Step>, e: string)
    requires Unpublished(s)
    ensures e in Run(s, steps).targets <==> ConfiguredIn(steps, e)
    ensures e in Run(s, steps).targets ==> RowIsHistory(s, steps, e, Run(s, steps).targets[e])
  {
    if steps != [] {
      var front, last := steps[..|steps| - 1], steps[|steps| - 1];
      TargetsAreHistory(s, front, e);
      assert forall k :: 0 <= k < |front| ==> steps[k] == front[k];
      assert steps[|front|] == last;
      if e !in Run(s, front).targets {
        UnconfiguredIsSilent(s, front, e);
      }
    }
  }

  /** The checkpoint is this node's own signed statement about a head its log has. */
  predicate OwnHead(key: PublicKey, log: seq<OriginEvent>, c: Checkpoint)
  {
    && key.Ed25519? && c.publicKey == key && c.nodeId == NodeIdOf(key)
    && c.signature == OnCheckpoint(key, c.nodeId, key, c.cursor, c.eventHash, c.createdAt)
    && 0 <= c.cursor <= |log| && c.eventHash.Hex? && c.eventHash == HashTextAt(log, c.cursor)
  }

  predicate SignedByRelay(r: Receipt, own: PublicKey)
  {
    && r.protocol == "commonwake/0.1" && r.relayKey.Ed25519? && r.relayKey != own
    && r.relayId == NodeIdOf(r.relayKey) && r.signer == Some(r.relayKey)
  }

  /**
    In every run a receipt is recorded exactly if another node signed it for a
    head of this node's own log and it does not fall behind, or change the relay
    of, the receipt last recorded for the endpoint.
  */
  lemma {:induction false} RecordedIff(s: Pub, steps: seq<Step>, e: string, r: Receipt, now: int)
    requires Unpublished(s)
    ensures var p, last := Run(s, steps), LastReceipt(s, steps, e);
      Succeeds(p, Success(e, r, now)) <==>
        && ConfiguredIn(steps, e) && SignedByRelay(r, p.key) && OwnHead(p.key, p.log, r.checkpoint)
        && (last.Some? ==>
          last.value.0.relayKey == r.relayKey && last.value.0.checkpoint.cursor <= r.checkpoint.cursor)
  {
    var p := Run(s, steps);
    RunIsSound(s, steps, 0);
    TargetsAreHistory(s, steps, e);
    if e in p.targets {
      assert TargetOk(p.key, p.log, p.targets[e]);
    }
  }

  /** Seconds to wait after `failures` earlier failures in a row. */
  function Backoff(failures: nat): int
  {
    Min(30 * Power(Min(failures, 7)), 3600)
  }

  /** `1 << n`. */
  function Power(n: nat): int
  {
    if n == 0 then 1 else 2 * Power(n - 1)
  }

  lemma {:induction false} PowerGrows(m: nat, n: nat)
    requires m <= n
    ensures 1 <= Power(m) <= Power(n)
    decreases n
  {
    if n > 0 {
      PowerGrows(if m == n then m - 1 else m, n - 1);
    }
  }

  /** The delay doubles from half a minute, never shrinks as failures add up, and is an hour from the seventh on. */
  lemma {:induction false} BackoffIsBounded(failures: nat, more: nat)
    requires failures <= more
    ensures 30 <= Backoff(failures) <= Backoff(more) <= 3600
    ensures Backoff(0) == 30 && (failures < 6 ==> Backoff(failures + 1) == 2 * Backoff(failures))
    ensures failures >= 7 ==> Backoff(failures) == 3600
  {
    PowerGrows(Min(failures, 7), Min(more, 7));
    assert Power(7) == 128 && Power(6) == 64 && Power(0) == 1;
    if failures < 6 {
      PowerGrows(failures + 1, 6);
    }
  }

  // ------------------------------------------------------------- the node

  /** A relay's answer to a published page. */
  datatype Reply = Reply(origin: NodeId, currentCursor: int, receipt: Receipt)

  /**
    What surrounds one page: events appended before it is built and while it is
    in flight, the answer, and the clock readings.
  */
  datatype Turn = Turn(
    before: seq<OriginEvent>, during: seq<OriginEvent>, sentAt: int, reply: Result<Reply, Error>, now: int)

  datatype PublicationReport = PublicationReport(
    caughtUp: bool, relayId: Option<NodeId>, snapshot: int, acknowledged: int, published: int, pages: nat,
    reconfirmed: bool)

  class Publisher {
    const key: PublicKey
    var log: seq<OriginEvent>
    var targets: map<string, Target>
    var desired: int
    var work: Option<Work>

    ghost function State(): Pub
      reads this
    {
      Pub(key, log, targets, desired, work)
    }

    method Refresh(now: int)
      modifies this`work
      ensures State() == Refreshed(old(State()), now)
    {
      var confirmed := set e | e in targets &&
        Confirms(Pub(key, log, targets, desired, work), targets[e], now - DAY) :: targets[e].relayId.value;
      assert confirmed == ConfirmedRelays(State(), now - DAY);
      work := Some(if |confirmed| >= desired then Complete else Open);
    }

    method ConfigurePublicationTarget(endpoint: string, now: int) returns (r: Result<(), Error>)
      modifies this`targets, this`work
      ensures r.Ok? <==> Succeeds(old(State()), Configure(endpoint, now))
      ensures State() == Next(old(State()), Configure(endpoint, now))
    {
      if |endpoint| == 0 || |endpoint| > 2048 {
        return Err(Validation);
      }
      if endpoint !in targets {
        targets := targets[endpoint := NEW_TARGET];
      }
      Refresh(now);
      return Ok(());
    }

    method RecordPublicationSuccess(endpoint: string, receipt: Receipt, now: int) returns (r: Result<(), Error>)
      modifies this`targets, this`work
      ensures r.Ok? <==> Succeeds(old(State()), Success(endpoint, receipt, now))
      ensures State() == Next(old(State()), Success(endpoint, receipt, now))
    {
      if !ValidReceipt(receipt) {
        return Err(Unauthorized);
      }
      var c := receipt.checkpoint;
      if c.nodeId != NodeIdOf(key) || c.publicKey != key {
        return Err(Unauthorized);
      }
      if c.cursor > |log| || HashTextAt(log, c.cursor) != c.eventHash {
        return Err(Unauthorized);
      }
      if endpoint !in targets {
        return Err(NotFound);
      }
      var t := targets[endpoint];
      if (t.relayId.Some? && t.relayId.value != receipt.relayId) ||
        (t.relayKey.Some? && t.relayKey.value != receipt.relayKey) {
        return Err(Conflict);
      }
      if c.cursor < t.cursor || (c.cursor == t.cursor && c.eventHash != t.eventHash) {
        return Err(Conflict);
      }
      targets := targets[endpoint :=
        Target(
          Some(receipt.relayId), Some(receipt.relayKey), c.cursor, c.eventHash, Some(receipt), Some(now), 0, None)];
      Refresh(now);
      return Ok(());
    }

    method RecordPublicationFailure(endpoint: string, next: int, now: int) returns (r: Result<(), Error>)
      modifies this`targets, this`work
      ensures r.Ok? <==> endpoint in old(targets)
      ensures State() == Next(old(State()), Failure(endpoint, next, now))
    {
      if endpoint !in targets {
        return Err(NotFound);
      }
      var t := targets[endpoint];
      targets := targets[endpoint := t.(failures := t.failures + 1, nextAttempt := Some(next))];
      Refresh(now);
      return Ok(());
    }

    /** The row loop of `replication_health`: refuse a row its receipt does not match, else note its relay. */
    method CountRelays(now: int) returns (r: Result<(set<NodeId>, set<NodeId>), Error>)
      ensures r ==
        if AllMatch(State()) then Ok((Relays(State(), None), Relays(State(), Some(now - DAY)))) else Err(Internal)
    {
      var confirmed: set<NodeId> := {};
      var recent: set<NodeId> := {};
      var rows := targets.Keys;
      ghost var seen: map<string, Target> := map[];
      ghost var s := State();
      while rows != {}
        invariant rows <= targets.Keys && seen.Keys == targets.Keys - rows
        invariant forall e :: e in seen ==> seen[e] == targets[e]
        invariant AllMatch(s.(targets := seen))
        invariant confirmed == Relays(s.(targets := seen), None)
        invariant recent == Relays(s.(targets := seen), Some(now - DAY))
        decreases rows
      {
        var e :| e in rows;
        var t := targets[e];
        if !ReceiptMatches(key, t) {
          return Err(Internal);
        }
        RelaysStep(s, seen, e, t, None);
        RelaysStep(s, seen, e, t, Some(now - DAY));
        if t.receipt.Some? && t.cursor == |log| && t.eventHash == HashTextAt(log, |log|) && t.relayId.Some? {
          confirmed := confirmed + {t.relayId.value};
          if t.lastSuccess.Some? && t.lastSuccess.value >= now - DAY {
            recent := recent + {t.relayId.value};
          }
        }
        seen := seen[e := t];
        rows := rows - {e};
      }
      assert seen == targets;
      assert s.(targets := seen) == s;
      return Ok((confirmed, recent));
    }

    /** `replication_health`; in a state a run reaches every row matches its receipt, so it always reports. */
    method ReplicationHealth(now: int) returns (r: Result<Health, Error>)
      ensures r == if AllMatch(State()) then Ok(HealthOf(State(), now)) else Err(Internal)
      ensures Inv(State()) ==> r.Ok?
    {
      assert Inv(State()) ==> AllMatch(State()) by {
        if Inv(State()) {
          InvMatches(State());
        }
      }
      var counts := CountRelays(now);
      if counts.Err? {
        return Err(Internal);
      }
      var (confirmed, recent) := counts.value;
      var status :=
        if targets == map[] then Unconfigured
        else if |recent| >= desired then Replicated
        else if recent == {} then Unreplicated
        else Degraded;
      return Ok(Health(status, |confirmed|, |recent|));
    }

    /** One page: what is appended around it, the relay's answer, and the receipt recorded if all checks pass. */
    method PublishPage(
      endpoint: string, bundle: Bundle, turn: Turn)
      returns (r: Result<NodeId, Error>, ghost steps: seq<Step>)
      modifies this
      ensures State() == Run(old(State()), steps)
      ensures log == old(log) + turn.before + turn.during
      ensures r.Ok? ==>
        && endpoint in old(targets) && endpoint in targets
        && targets[endpoint].cursor == bundle.checkpoint.cursor
        && targets[endpoint].relayId == Some(r.value) && targets[endpoint].failures == 0
    {
      ghost var s := State();
      log := log + turn.before + turn.during;
      steps := Appends(turn.before + turn.during);
      RunAppends(s, turn.before + turn.during);
      assert s.log + (turn.before + turn.during) == log;
      if turn.reply.Err? {
        r := Err(turn.reply.error);
        return;
      }
      var reply := turn.reply.value;
      if reply.origin != NodeIdOf(key) || reply.currentCursor < bundle.throughCursor {
        r := Err(Unauthorized);
        return;
      }
      if !ValidReceipt(reply.receipt) || reply.receipt.checkpoint != bundle.checkpoint {
        r := Err(Unauthorized);
        return;
      }
      var recorded := RecordPublicationSuccess(endpoint, reply.receipt, turn.now);
      ghost var last := Success(endpoint, reply.receipt, turn.now);
      assert (steps + [last])[..|steps|] == steps;
      steps := steps + [last];
      r := if recorded.Ok? then Ok(reply.receipt.relayId) else Err(recorded.error);
    }

    /**
      `publish_origin_inner`: page after page until the snapshot head is
      acknowledged, whatever the relay answers and whatever is appended
      meanwhile.  It always ends, and without a page limit it only succeeds
      having reached the snapshot.
    */
    method PublishPages(endpoint: string, batchSize: nat, maxPages: Option<nat>, turns: nat -> Turn)
      returns (r: Result<PublicationReport, Error>, ghost steps: seq<Step>)
      modifies this
      ensures State() == Run(old(State()), steps)
      ensures r.Ok? ==>
        && endpoint in old(targets) && endpoint in targets
        && Accounts(r.value, old(targets[endpoint]), targets[endpoint], |old(log)|, maxPages)
        && Batched(r.value, Clamp(batchSize, 1, 500))
    {
      steps := [];
      if endpoint !in targets {
        r := Err(NotFound);
        return;
      }
      var target := targets[endpoint];
      var snapshot := |log|;
      if target.cursor > snapshot || target.cursor < 0 || HashTextAt(log, target.cursor) != target.eventHash {
        r := Err(Conflict);
        return;
      }
      ghost var start := State();
      var batch := Clamp(batchSize, 1, MAX_FEDERATION_EVENTS);
      var initial := target.cursor;
      var cursor := initial;
      var relayId := target.relayId;
      var published := 0;
      var pages := 0;
      while true
        invariant State() == Run(start, steps)
        invariant initial <= cursor <= snapshot <= |log|
        invariant published == cursor - initial == Times(pages, batch)
        invariant pages > 0 ==> cursor < snapshot && (maxPages.Some? ==> pages < maxPages.value)
        invariant endpoint in targets && (pages == 0 ==> targets[endpoint] == target)
        decreases snapshot - cursor
      {
        var turn := turns(pages);
        var page := Relay.FederationBundle(Replica.Db(key, log + turn.before, map[], {}, map[], []), cursor, batch,
          turn.sentAt);
        var bundle := page.value;
        var pageEvents := |bundle.events|;
        assert pageEvents <= batch && (bundle.throughCursor < snapshot ==> pageEvents == batch);
        var outcome, pageSteps := PublishPage(endpoint, bundle, turn);
        RunConcat(start, steps, pageSteps);
        steps := steps + pageSteps;
        if outcome.Err? {
          r := Err(outcome.error);
          return;
        }
        relayId := Some(outcome.value);
        cursor := bundle.throughCursor;
        published := published + pageEvents;
        pages := pages + 1;
        if cursor >= snapshot || pageEvents == 0 {
          break;
        }
        if maxPages.Some? && pages >= if maxPages.value > 1 then maxPages.value else 1 {
          break;
        }
      }
      var reconfirmed := initial == snapshot && published == 0;
      r := Ok(PublicationReport(cursor >= snapshot, relayId, snapshot, cursor, published, pages, reconfirmed));
    }

    /** The error arm of `publish_origin`: the delay depends on the failures recorded so far. */
    method NoteFailure(endpoint: string, failedAt: int)
      modifies this`targets, this`work
      ensures State() == Next(old(State()), FailureOf(old(State()), endpoint, failedAt))
    {
      var failures := if endpoint in targets then targets[endpoint].failures else 0;
      var _ := RecordPublicationFailure(endpoint, failedAt + 1000 * Backoff(failures), failedAt);
    }

    /** `publish_origin`: configure the target, publish, and record a failure with its backoff. */
    method PublishOrigin(
      endpoint: string, batchSize: nat, maxPages: Option<nat>, turns: nat -> Turn, startedAt: int, failedAt: int)
      returns (r: Result<PublicationReport, Error>, ghost steps: seq<Step>)
      modifies this
      ensures State() == Run(old(State()), steps)
      ensures r.Ok? ==>
        && endpoint in targets
        && var before := if endpoint in old(targets) then old(targets)[endpoint] else NEW_TARGET;
        Accounts(r.value, before, targets[endpoint], |old(log)|, maxPages) && Batched(r.value, Clamp(batchSize, 1, 500))
      ensures r.Err? && 0 < |endpoint| <= 2048 ==>
        steps != [] && steps[|steps| - 1] == FailureOf(Run(old(State()), steps[..|steps| - 1]), endpoint, failedAt)
    {
      ghost var start := State();
      steps := [];
      var configured := ConfigurePublicationTarget(endpoint, startedAt);
      if configured.Err? {
        r := Err(configured.error);
        return;
      }
      ghost var first, inner := [Configure(endpoint, startedAt)], [];
      assert first[..0] == [] && State() == Run(start, first);
      r, inner := PublishPages(endpoint, batchSize, maxPages, turns);
      RunConcat(start, first, inner);
      steps := first + inner;
      if r.Err? {
        ghost var failure := FailureOf(State(), endpoint, failedAt);
        NoteFailure(endpoint, failedAt);
        assert (steps + [failure])[..|steps|] == steps;
        steps := steps + [failure];
      }
    }
  }

  function FailureOf(s: Pub, endpoint: string, failedAt: int): Step
  {
    var failures := if endpoint in s.targets then s.targets[endpoint].failures else 0;
    Failure(endpoint, failedAt + 1000 * Backoff(failures), failedAt)
  }

  /** The report of a finished publication, against the target before and after. */
  ghost predicate Accounts(report: PublicationReport, before: Target, after: Target, head: int, maxPages: Option<nat>)
  {
    && report.snapshot == head
    && report.acknowledged == after.cursor
    && report.published == after.cursor - before.cursor >= 0
    && report.relayId == after.relayId && after.relayId.Some? && after.failures == 0
    && report.pages >= 1
    && (report.caughtUp <==> after.cursor >= head)
    && (maxPages.None? ==> report.caughtUp)
    && (maxPages.Some? ==> report.pages <= if maxPages.value > 1 then maxPages.value else 1)
    && (!report.caughtUp ==> report.pages >= maxPages.value)
    && (report.reconfirmed <==> before.cursor == head && report.published == 0)
  }

  /** All pages but the last were full. */
  predicate Batched(report: PublicationReport, batch: nat)
  {
    report.pages > 0 && Times(report.pages - 1, batch) <= report.published <= Times(report.pages, batch)
  }

  /** The appends of a stretch of events, as steps. */
  function Appends(es: seq<OriginEvent>): (steps: seq<Step>)
    ensures |steps| == |es|
  {
    seq(|es|, i requires 0 <= i < |es| => Append(es[i]))
  }

  lemma {:induction false} RunAppends(s: Pub, es: seq<OriginEvent>)
    ensures Run(s, Appends(es)) == s.(log := s.log + es)
  {
    if es == [] {
      assert s.log + es == s.log;
    } else {
      var front := es[..|es| - 1];
      RunAppends(s, front);
      assert Appends(es)[..|es| - 1] == Appends(front);
      assert s.log + front + [es[|es| - 1]] == s.log + es;
    }
  }

  lemma {:induction false} RunConcat(s: Pub, a: seq<Step>, b: seq<Step>)
    ensures Run(s, a + b) == Run(Run(s, a), b)
  {
    if b == [] {
      assert a + b == a;
    } else {
      RunConcat(s, a, b[..|b| - 1]);
      assert (a + b)[..|a + b| - 1] == a + b[..|b| - 1];
    }
  }

  ghost predicate AllMatch(s: Pub)
  {
    forall e :: e in s.targets ==> ReceiptMatches(s.key, s.targets[e])
  }

  lemma {:induction false} InvMatches(s: Pub)
    requires Inv(s)
    ensures AllMatch(s)
  {
    forall e | e in s.targets
      ensures ReceiptMatches(s.key, s.targets[e])
    {
      assert TargetOk(s.key, s.log, s.targets[e]);
    }
  }

  lemma {:induction false} RelaysStep(s: Pub, seen: map<string, Target>, e: string, t: Target, since: Option<int>)
    requires e !in seen
    ensures Relays(s.(targets := seen[e := t]), since) ==
      Relays(s.(targets := seen), since) + if Counts(s, t, since) then {t.relayId.value} else {}
  {
    var a, b := s.(targets := seen), s.(targets := seen[e := t]);
    forall x | x in seen
      ensures Counts(b, b.targets[x], since) <==> Counts(a, a.targets[x], since)
    {
    }
    assert Counts(b, b.targets[e], since) <==> Counts(s, t, since);
    forall n | n in Relays(a, since)
      ensures n in Relays(b, since)
    {
      var x :| x in seen && Counts(a, a.targets[x], since) && a.targets[x].relayId.value == n;
      assert x in b.targets && b.targets[x] == a.targets[x];
    }
  }
}
