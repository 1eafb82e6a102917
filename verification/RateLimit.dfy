/**
  The public edge's rate limiter (src/edge.rs): three fixed windows, one second
  for requests, one minute for writes and one hour for volunteer writes.

  Times are integer milliseconds.
*/
module RateLimit {
  import opened Common

  const SECOND: int := 1000
  const MINUTE: int := 60 * SECOND
  const HOUR: int := 60 * MINUTE

  datatype Window = Window(started: int, count: nat)

  datatype Limits = Limits(requestsPerSecond: nat, writesPerMinute: nat, volunteerWritesPerHour: nat)

  datatype Call = Call(now: int, write: bool, volunteerWrite: bool)

  datatype Verdict = Accepted | TooManyRequests | TooManyWrites | TooManyVolunteerWrites

  /** The three windows, by kind. */
  datatype Kind = Requests | Writes | VolunteerWrites

  datatype Windows = Windows(second: Window, minute: Window, hour: Window)

  function Length(k: Kind): (n: int)
    ensures n > 0
  {
    match k
    case Requests => SECOND
    case Writes => MINUTE
    case VolunteerWrites => HOUR
  }

  function Limit(l: Limits, k: Kind): nat
  {
    match k
    case Requests => l.requestsPerSecond
    case Writes => l.writesPerMinute
    case VolunteerWrites => l.volunteerWritesPerHour
  }

  /** Whether a call draws on a window's budget. */
  predicate Matches(c: Call, k: Kind)
  {
    match k
    case Requests => true
    case Writes => c.write
    case VolunteerWrites => c.volunteerWrite
  }

  function WindowOf(w: Windows, k: Kind): Window
  {
    match k
    case Requests => w.second
    case Writes => w.minute
    case VolunteerWrites => w.hour
  }

  // ---------------------------------------------------------- specification

  function Rolled(w: Window, now: int, length: int): Window
  {
    if now - w.started >= length then Window(now, 0) else w
  }

  function RolledAll(w: Windows, now: int): Windows
  {
    Windows(Rolled(w.second, now, SECOND), Rolled(w.minute, now, MINUTE), Rolled(w.hour, now, HOUR))
  }

  function VerdictOf(w: Windows, c: Call, l: Limits): Verdict
  {
    var r := RolledAll(w, c.now);
    if r.second.count >= l.requestsPerSecond then TooManyRequests
    else if c.write && r.minute.count >= l.writesPerMinute then TooManyWrites
    else if c.volunteerWrite && r.hour.count >= l.volunteerWritesPerHour then TooManyVolunteerWrites
    else Accepted
  }

  function Spent(w: Window, spend: bool): Window
  {
    if spend then w.(count := w.count + 1) else w
  }

  function After(w: Windows, c: Call, l: Limits): Windows
  {
    var r := RolledAll(w, c.now);
    if VerdictOf(w, c, l) != Accepted then r
    else Windows(Spent(r.second, true), Spent(r.minute, c.write), Spent(r.hour, c.volunteerWrite))
  }

  /** The limiter's state after a run of calls that it first saw at `start`. */
  function Run(start: int, calls: seq<Call>, l: Limits): Windows
  {
    if calls == [] then Windows(Window(start, 0), Window(start, 0), Window(start, 0))
    else After(Run(start, calls[..|calls| - 1], l), calls[|calls| - 1], l)
  }

  predicate AcceptedLast(start: int, calls: seq<Call>, l: Limits)
    requires calls != []
  {
    VerdictOf(Run(start, calls[..|calls| - 1], l), calls[|calls| - 1], l) == Accepted
  }

  /** How many calls of a kind the run accepted in [from, until). */
  function AcceptedIn(start: int, calls: seq<Call>, l: Limits, k: Kind, from: int, until: int): (n: nat)
  {
    if calls == [] then 0
    else
      var c := calls[|calls| - 1];
      AcceptedIn(start, calls[..|calls| - 1], l, k, from, until)
        + if AcceptedLast(start, calls, l) && Matches(c, k) && from <= c.now < until then 1 else 0
  }

  /** Time never runs backwards, from the limiter's creation on. */
  predicate Ordered(start: int, calls: seq<Call>)
  {
    && (forall i :: 0 <= i < |calls| ==> start <= calls[i].now)
    && (forall i, j :: 0 <= i < j < |calls| ==> calls[i].now <= calls[j].now)
  }

  // ------------------------------------------------------------------- bound

  /** One call, seen by one window. */
  lemma {:induction false} WindowStep(w: Windows, c: Call, l: Limits, k: Kind)
    ensures var r := Rolled(WindowOf(w, k), c.now, Length(k));
      && WindowOf(After(w, c, l), k) == Spent(r, VerdictOf(w, c, l) == Accepted && Matches(c, k))
      && (VerdictOf(w, c, l) == Accepted && Matches(c, k) ==> r.count < Limit(l, k))
  {
  }

  lemma {:induction false} AcceptedSplits(start: int, calls: seq<Call>, l: Limits, k: Kind, a: int, b: int, c: int)
    requires a <= b <= c
    ensures AcceptedIn(start, calls, l, k, a, c) ==
      AcceptedIn(start, calls, l, k, a, b) + AcceptedIn(start, calls, l, k, b, c)
  {
    if calls != [] {
      AcceptedSplits(start, calls[..|calls| - 1], l, k, a, b, c);
    }
  }

  lemma {:induction false} NoneYet(start: int, calls: seq<Call>, l: Limits, k: Kind, now: int, until: int)
    requires forall i :: 0 <= i < |calls| ==> calls[i].now < now
    ensures AcceptedIn(start, calls, l, k, now, until) == 0
  {
    if calls != [] {
      NoneYet(start, calls[..|calls| - 1], l, k, now, until);
    }
  }

  function LastTime(start: int, calls: seq<Call>): int
  {
    if calls == [] then start else calls[|calls| - 1].now
  }

  /**
    What a window knows about the run: it is the current one at the last call,
    its count is that of every call since it opened, and the `j` window lengths
    before it opened held at most `j` budgets.
  */
  ghost predicate WindowKnows(start: int, calls: seq<Call>, l: Limits, k: Kind, j: nat, a: int, b: int)
  {
    var w := WindowOf(Run(start, calls, l), k);
    && 0 <= LastTime(start, calls) - w.started < Length(k)
    && AcceptedIn(start, calls, l, k, w.started, b) == w.count <= Limit(l, k)
    && (w.started - Times(j, Length(k)) <= a <= w.started ==>
      AcceptedIn(start, calls, l, k, a, w.started) <= Times(j, Limit(l, k)))
  }

  lemma {:induction false} KeepsKnowing(start: int, calls: seq<Call>, l: Limits, k: Kind, j: nat, a: int, b: int)
    requires Ordered(start, calls) && LastTime(start, calls) < b
    ensures WindowKnows(start, calls, l, k, j, a, b)
    decreases |calls|, 0
  {
    if calls != [] {
      var front, c := calls[..|calls| - 1], calls[|calls| - 1];
      KeepsKnowing(start, front, l, k, j, a, b);
      var w := WindowOf(Run(start, front, l), k);
      WindowStep(Run(start, front, l), c, l, k);
      if c.now - w.started >= Length(k) {
        NoneYet(start, front, l, k, c.now, b);
        if c.now - Times(j, Length(k)) <= a <= c.now {
          Rolls(start, front, l, k, j, a, b, c.now);
        }
      }
    }
  }

  /** When a window opens at `now`, the lengths before it include the window it replaces. */
  lemma {:induction false} Rolls(start: int, calls: seq<Call>, l: Limits, k: Kind, j: nat, a: int, b: int, now: int)
    requires Ordered(start, calls) && LastTime(start, calls) < b && now <= b
    requires now - WindowOf(Run(start, calls, l), k).started >= Length(k)
    requires now - Times(j, Length(k)) <= a <= now
    ensures AcceptedIn(start, calls, l, k, a, now) <= Times(j, Limit(l, k))
    decreases |calls|, 1
  {
    var started := WindowOf(Run(start, calls, l), k).started;
    if j == 0 {
      EmptyInterval(start, calls, l, k, a);
    } else if a >= started {
      KeepsKnowing(start, calls, l, k, j, a, b);
      PartOfWindow(start, calls, l, k, started, a, now, b);
    } else {
      KeepsKnowing(start, calls, l, k, j - 1, a, b);
      OneWindowMore(start, calls, l, k, a, started, now, b);
    }
  }

  lemma {:induction false} OneWindowMore(
    start: int, calls: seq<Call>, l: Limits, k: Kind, a: int, started: int, now: int, b: int)
    requires a <= started <= now <= b
    ensures AcceptedIn(start, calls, l, k, a, now) <=
      AcceptedIn(start, calls, l, k, a, started) + AcceptedIn(start, calls, l, k, started, b)
  {
    AcceptedSplits(start, calls, l, k, a, started, now);
    PartOfWindow(start, calls, l, k, started, started, now, b);
  }

  lemma {:induction false} PartOfWindow(
    start: int, calls: seq<Call>, l: Limits, k: Kind, started: int, from: int, until: int, b: int)
    requires started <= from <= until <= b
    ensures AcceptedIn(start, calls, l, k, from, until) <= AcceptedIn(start, calls, l, k, started, b)
  {
    AcceptedSplits(start, calls, l, k, started, from, b);
    AcceptedSplits(start, calls, l, k, from, until, b);
  }

  lemma {:induction false} EmptyInterval(start: int, calls: seq<Call>, l: Limits, k: Kind, a: int)
    ensures AcceptedIn(start, calls, l, k, a, a) == 0
  {
    if calls != [] {
      EmptyInterval(start, calls[..|calls| - 1], l, k, a);
    }
  }

  /** Over any `j` window lengths, at most `j + 1` budgets get through. */
  lemma {:induction false} AtMost(start: int, calls: seq<Call>, l: Limits, k: Kind, j: nat, a: int)
    requires Ordered(start, calls) && j > 0
    ensures AcceptedIn(start, calls, l, k, a, a + Times(j, Length(k))) <= Times(j + 1, Limit(l, k))
  {
    if calls != [] {
      var b := a + Times(j, Length(k));
      AtMost(start, calls[..|calls| - 1], l, k, j, a);
      var now := LastTime(start, calls);
      if a <= now < b {
        KeepsKnowing(start, calls, l, k, j, a, b);
        var w := WindowOf(Run(start, calls, l), k);
        if a <= w.started {
          AcceptedSplits(start, calls, l, k, a, w.started, b);
        } else {
          AcceptedSplits(start, calls, l, k, w.started, a, b);
        }
      }
    }
  }

  /**
    Whatever the calls, each window lets at most twice its limit through in any
    half-open interval of its own length.
  */
  lemma {:induction false} AtMostTwice(start: int, calls: seq<Call>, l: Limits, k: Kind, a: int)
    requires Ordered(start, calls)
    ensures AcceptedIn(start, calls, l, k, a, a + 1000 * Seconds(k)) <= 2 * Limit(l, k)
  {
    AtMost(start, calls, l, k, 1, a);
    TimesIsProduct(1, Length(k));
    TimesIsProduct(2, Limit(l, k));
  }

  lemma {:induction false} WritesAreRequests(start: int, calls: seq<Call>, l: Limits, k: Kind, from: int, until: int)
    ensures AcceptedIn(start, calls, l, k, from, until) <= AcceptedIn(start, calls, l, Requests, from, until)
  {
    if calls != [] {
      WritesAreRequests(start, calls[..|calls| - 1], l, k, from, until);
    }
  }

  function Seconds(k: Kind): (n: nat)
    ensures n * SECOND == Length(k) && n > 0
  {
    match k
    case Requests => 1
    case Writes => 60
    case VolunteerWrites => 3600
  }

  /** The request limit caps the longer windows too: 61 budgets of a second in a minute, 3601 in an hour. */
  lemma {:induction false} RequestsCapAll(start: int, calls: seq<Call>, l: Limits, k: Kind, a: int)
    requires Ordered(start, calls)
    ensures AcceptedIn(start, calls, l, k, a, a + 1000 * Seconds(k)) <= (Seconds(k) + 1) * l.requestsPerSecond
  {
    WritesAreRequests(start, calls, l, k, a, a + Length(k));
    AtMost(start, calls, l, Requests, Seconds(k), a);
    TimesIsProduct(Seconds(k), SECOND);
    TimesIsProduct(Seconds(k) + 1, l.requestsPerSecond);
  }

  // --------------------------------------------------------------- tightness

  /** A call that draws on the window and, apart from requests, on no other. */
  function CallOf(k: Kind, now: int): Call
  {
    Call(now, k.Writes?, k.VolunteerWrites?)
  }

  function Burst(k: Kind, n: nat, now: int): seq<Call>
  {
    seq(n, i => CallOf(k, now))
  }

  /** Where a run stands: its request window, the kind's own window, and what it accepted of the kind in an interval. */
  datatype Standing = Standing(second: Window, own: Window, accepted: nat)

  function Stands(start: int, calls: seq<Call>, l: Limits, k: Kind, from: int, until: int): Standing
  {
    var w := Run(start, calls, l);
    Standing(w.second, WindowOf(w, k), AcceptedIn(start, calls, l, k, from, until))
  }

  /** The standing after `n` more calls at one moment, all accepted. */
  function Further(s: Standing, k: Kind, n: nat, now: int): Standing
  {
    if n == 0 then s
    else
      var second, own := Rolled(s.second, now, SECOND), Rolled(s.own, now, Length(k));
      Standing(second.(count := second.count + n), own.(count := own.count + n), s.accepted + n)
  }

  /** Room for `n` more calls at one moment, in the request window and in the kind's own. */
  predicate HasRoom(s: Standing, l: Limits, k: Kind, n: nat, now: int)
  {
    && Rolled(s.second, now, SECOND).count + n <= l.requestsPerSecond
    && Rolled(s.own, now, Length(k)).count + n <= Limit(l, k)
  }

  /** The run stands at `s`. */
  ghost predicate At(start: int, calls: seq<Call>, l: Limits, k: Kind, from: int, until: int, s: Standing)
  {
    Stands(start, calls, l, k, from, until) == s
  }

  lemma {:induction false} OneMore(
    start: int, calls: seq<Call>, l: Limits, k: Kind, now: int, from: int, until: int, s: Standing)
    requires At(start, calls, l, k, from, until, s) && HasRoom(s, l, k, 1, now) && from <= now < until
    ensures At(start, calls + [CallOf(k, now)], l, k, from, until, Further(s, k, 1, now))
  {
    assert (calls + [CallOf(k, now)])[..|calls|] == calls;
  }

  lemma {:induction false} FurtherAgain(s: Standing, l: Limits, k: Kind, n: nat, now: int)
    requires HasRoom(s, l, k, n + 1, now)
    ensures HasRoom(Further(s, k, n, now), l, k, 1, now)
    ensures Further(Further(s, k, n, now), k, 1, now) == Further(s, k, n + 1, now)
  {
  }

  lemma {:induction false} BurstGrows(calls: seq<Call>, k: Kind, n: nat, now: int)
    ensures calls + Burst(k, 0, now) == calls
    ensures calls + Burst(k, n + 1, now) == calls + Burst(k, n, now) + [CallOf(k, now)]
  {
    assert Burst(k, n + 1, now) == Burst(k, n, now) + [CallOf(k, now)];
  }

  /** `n` calls at one moment within the room there is are all accepted. */
  lemma {:induction false} BurstAccepted(
    start: int, calls: seq<Call>, l: Limits, k: Kind, n: nat, now: int, from: int, until: int, s: Standing)
    requires At(start, calls, l, k, from, until, s) && HasRoom(s, l, k, n, now) && from <= now < until
    ensures At(start, calls + Burst(k, n, now), l, k, from, until, Further(s, k, n, now))
  {
    if n == 0 {
      BurstGrows(calls, k, 0, now);
    } else {
      BurstAccepted(start, calls, l, k, n - 1, now, from, until, s);
      FurtherAgain(s, l, k, n - 1, now);
      OneMore(start, calls + Burst(k, n - 1, now), l, k, now, from, until, Further(s, k, n - 1, now));
      BurstGrows(calls, k, n - 1, now);
    }
  }

  lemma {:induction false} Beginning(start: int, l: Limits, k: Kind, from: int, until: int)
    ensures At(start, [], l, k, from, until, Standing(Window(start, 0), Window(start, 0), 0))
  {
  }

  /** For requests: a full budget just before a second ends and another just as the next begins. */
  function TwiceRequests(l: Limits): seq<Call>
  {
    Burst(Requests, l.requestsPerSecond, SECOND - 1) + Burst(Requests, l.requestsPerSecond, SECOND)
  }

  lemma {:induction false} RequestsReachTwice(l: Limits)
    ensures Ordered(0, TwiceRequests(l))
    ensures AcceptedIn(0, TwiceRequests(l), l, Requests, SECOND - 1, 2 * SECOND - 1) == 2 * l.requestsPerSecond
  {
    var n, t, until := l.requestsPerSecond, SECOND - 1, 2 * SECOND - 1;
    var s := Standing(Window(0, 0), Window(0, 0), 0);
    Beginning(0, l, Requests, t, until);
    BurstAccepted(0, [], l, Requests, n, t, t, until, s);
    var first := Burst(Requests, n, t);
    assert [] + first == first;
    BurstAccepted(0, first, l, Requests, n, SECOND, t, until, Further(s, Requests, n, t));
  }

  /** Bursts of the given sizes, one a second from `t` on. */
  function Spread(k: Kind, ns: seq<nat>, t: int): seq<Call>
  {
    if ns == [] then []
    else Spread(k, ns[..|ns| - 1], t) + Burst(k, ns[|ns| - 1], t + (|ns| - 1) * SECOND)
  }

  function Sum(ns: seq<nat>): nat
  {
    if ns == [] then 0 else Sum(ns[..|ns| - 1]) + ns[|ns| - 1]
  }

  /** Sizes the request limit allows in one second. */
  predicate Moderate(r: nat, ns: seq<nat>)
  {
    forall i :: 0 <= i < |ns| ==> 0 < ns[i] <= r
  }

  /** A budget cut into such sizes. */
  function Shares(total: nat, r: nat): (ns: seq<nat>)
    requires r > 0
    ensures Sum(ns) == total && Moderate(r, ns)
    ensures total > 0 ==> ns != [] && Times(|ns| - 1, r) < total
  {
    if total == 0 then []
    else if total <= r then
      assert [total][..0] == [];
      [total]
    else
      var rest := Shares(total - r, r);
      assert (rest + [r])[..|rest|] == rest;
      rest + [r]
  }

  /** The standing after a spread in a window of the kind that opened at `since`. */
  function AfterSpread(s: Standing, ns: seq<nat>, t: int, since: int): Standing
  {
    if ns == [] then s
    else Standing(Window(t + (|ns| - 1) * SECOND, ns[|ns| - 1]), Window(since, Sum(ns)), s.accepted + Sum(ns))
  }

  /** The first burst opens a request window, and finds the kind's own window unspent. */
  predicate ReadyAt(s: Standing, k: Kind, t: int, since: int)
  {
    t - s.second.started >= SECOND && Rolled(s.own, t, Length(k)) == Window(since, 0)
  }

  lemma {:induction false} NextBurst(s: Standing, l: Limits, k: Kind, ns: seq<nat>, t: int, since: int)
    requires ns != [] && Moderate(l.requestsPerSecond, ns) && Sum(ns) <= Limit(l, k)
    requires t + (|ns| - 1) * SECOND - since < Length(k) && ReadyAt(s, k, t, since)
    ensures var n, now := ns[|ns| - 1], t + (|ns| - 1) * SECOND;
      var before := AfterSpread(s, ns[..|ns| - 1], t, since);
      HasRoom(before, l, k, n, now) && Further(before, k, n, now) == AfterSpread(s, ns, t, since)
  {
  }

  lemma {:induction false} SpreadGrows(calls: seq<Call>, k: Kind, ns: seq<nat>, t: int)
    ensures calls + Spread(k, [], t) == calls
    ensures ns != [] ==>
      calls + Spread(k, ns, t) == calls + Spread(k, ns[..|ns| - 1], t) + Burst(k, ns[|ns| - 1], t + (|ns| - 1) * SECOND)
  {
  }

  lemma {:induction false} SpreadAccepted(
    start: int, calls: seq<Call>, l: Limits, k: Kind, ns: seq<nat>, t: int, since: int, from: int, until: int,
    s: Standing)
    requires Moderate(l.requestsPerSecond, ns) && Sum(ns) <= Limit(l, k)
    requires t + (|ns| - 1) * SECOND - since < Length(k) && from <= t && t + |ns| * SECOND <= until
    requires At(start, calls, l, k, from, until, s) && ReadyAt(s, k, t, since)
    ensures At(start, calls + Spread(k, ns, t), l, k, from, until, AfterSpread(s, ns, t, since))
    decreases |ns|
  {
    SpreadGrows(calls, k, ns, t);
    if ns != [] {
      var n, now, front := ns[|ns| - 1], t + (|ns| - 1) * SECOND, ns[..|ns| - 1];
      SpreadAccepted(start, calls, l, k, front, t, since, from, until, s);
      NextBurst(s, l, k, ns, t, since);
      BurstAccepted(start, calls + Spread(k, front, t), l, k, n, now, from, until, AfterSpread(s, front, t, since));
    }
  }

  /** The calls of a spread come in order, within its seconds. */
  predicate InOrder(calls: seq<Call>, from: int, until: int)
  {
    && (forall i :: 0 <= i < |calls| ==> from <= calls[i].now < until)
    && (forall i, j :: 0 <= i < j < |calls| ==> calls[i].now <= calls[j].now)
  }

  lemma {:induction false} SpreadInOrder(k: Kind, ns: seq<nat>, t: int)
    ensures InOrder(Spread(k, ns, t), t, t + |ns| * SECOND)
  {
    if ns != [] {
      SpreadInOrder(k, ns[..|ns| - 1], t);
    }
  }

  lemma {:induction false} OrderedConcat(a: seq<Call>, b: seq<Call>, start: int, mid: int, until: int)
    requires 0 <= start <= mid && InOrder(a, start, mid) && InOrder(b, mid, until)
    ensures Ordered(0, a + b)
  {
  }

  const NOTHING_YET := Standing(Window(0, 0), Window(0, 0), 0)

  /** A budget spent just before the kind's first window runs out. */
  lemma {:induction false} FirstSpread(l: Limits, k: Kind, ns: seq<nat>, a: int, until: int) returns (calls: seq<Call>)
    requires ns != [] && Moderate(l.requestsPerSecond, ns) && Sum(ns) == Limit(l, k)
    requires SECOND <= a && a + |ns| * SECOND == Length(k) <= until
    ensures At(0, calls, l, k, a, until, AfterSpread(NOTHING_YET, ns, a, 0)) && InOrder(calls, a, Length(k))
  {
    calls := [] + Spread(k, ns, a);
    FromScratch(l, k, ns, a, until);
    SpreadInOrder(k, ns, a);
  }

  lemma {:induction false} FromScratch(l: Limits, k: Kind, ns: seq<nat>, a: int, until: int)
    requires ns != [] && Moderate(l.requestsPerSecond, ns) && Sum(ns) == Limit(l, k)
    requires SECOND <= a && a + |ns| * SECOND == Length(k) <= until
    ensures At(0, [] + Spread(k, ns, a), l, k, a, until, AfterSpread(NOTHING_YET, ns, a, 0))
  {
    Beginning(0, l, k, a, until);
    SpreadAccepted(0, [], l, k, ns, a, 0, a, until, NOTHING_YET);
  }

  /** After it the next window of the kind can be spent at once. */
  lemma {:induction false} ReadyAgain(k: Kind, ns: seq<nat>, a: int)
    requires ns != [] && a + |ns| * SECOND == Length(k)
    ensures ReadyAt(AfterSpread(NOTHING_YET, ns, a, 0), k, Length(k), Length(k))
  {
  }

  /** And another budget spent right after. */
  lemma {:induction false} SecondSpread(
    l: Limits, k: Kind, ns: seq<nat>, first: seq<Call>, from: int, until: int, s: Standing)
    returns (calls: seq<Call>)
    requires ns != [] && Moderate(l.requestsPerSecond, ns) && Sum(ns) == Limit(l, k)
    requires 0 <= from <= Length(k) && Length(k) + |ns| * SECOND <= until && |ns| * SECOND <= Length(k)
    requires InOrder(first, from, Length(k))
    requires At(0, first, l, k, from, until, s) && ReadyAt(s, k, Length(k), Length(k)) && s.accepted == Limit(l, k)
    ensures Ordered(0, calls) && AcceptedIn(0, calls, l, k, from, until) == 2 * Limit(l, k)
  {
    var second := Spread(k, ns, Length(k));
    calls := first + second;
    SpreadInOrder(k, ns, Length(k));
    OrderedConcat(first, second, from, Length(k), Length(k) + |ns| * SECOND);
    SpreadAccepted(0, first, l, k, ns, Length(k), Length(k), from, until, s);
  }

  lemma {:induction false} FewShares(n: nat, h: nat, r: nat, total: nat)
    requires n > 0 && Times(n - 1, r) < total <= Times(h, r)
    ensures n <= h
    decreases n
  {
    if h == 0 {
    } else if n > 1 {
      if total > r {
        FewShares(n - 1, h - 1, r, total - r);
      }
    }
  }

  lemma {:induction false} FewEnough(l: Limits, k: Kind)
    requires k != Requests && 0 < Limit(l, k) <= Seconds(k) / 2 * l.requestsPerSecond
    ensures l.requestsPerSecond > 0
    ensures 0 < |Shares(Limit(l, k), l.requestsPerSecond)| <= Seconds(k) / 2
  {
    var h, r := Seconds(k) / 2, l.requestsPerSecond;
    TimesIsProduct(h, r);
    assert r > 0;
    FewShares(|Shares(Limit(l, k), r)|, h, r, Limit(l, k));
  }

  /**
    The bound is met for writes and volunteer writes as well, whenever the
    request limit lets one of their budgets through in half the window's length.
  */
  lemma {:induction false} TwiceIsReached(l: Limits, k: Kind) returns (calls: seq<Call>, a: int)
    requires k != Requests && 0 < Limit(l, k) <= Seconds(k) / 2 * l.requestsPerSecond
    ensures Ordered(0, calls) && AcceptedIn(0, calls, l, k, a, a + 1000 * Seconds(k)) == 2 * Limit(l, k)
  {
    FewEnough(l, k);
    var ns := Shares(Limit(l, k), l.requestsPerSecond);
    a := Length(k) - |ns| * SECOND;
    var first := FirstSpread(l, k, ns, a, a + Length(k));
    ReadyAgain(k, ns, a);
    calls := SecondSpread(l, k, ns, first, a, a + Length(k), AfterSpread(NOTHING_YET, ns, a, 0));
  }

  // --------------------------------------------------------------- rejection

  /** A window has run out by the time of a call. */
  predicate Elapsed(w: Windows, now: int)
  {
    now - w.second.started >= SECOND || now - w.minute.started >= MINUTE || now - w.hour.started >= HOUR
  }

  /**
    A rejected call spends nothing in any window; it leaves no trace at all
    exactly if it found every window still open.
  */
  lemma {:induction false} RejectionSpendsNothing(w: Windows, c: Call, l: Limits, k: Kind)
    requires VerdictOf(w, c, l) != Accepted
    ensures WindowOf(After(w, c, l), k).count <= WindowOf(w, k).count
    ensures After(w, c, l) == w <==> !Elapsed(w, c.now)
  {
  }

  /** The window, as the call finds it, has no budget left for it. */
  predicate Exhausted(w: Windows, c: Call, l: Limits, k: Kind)
  {
    Matches(c, k) && Rolled(WindowOf(w, k), c.now, Length(k)).count >= Limit(l, k)
  }

  /**
    A call is refused exactly if a window it draws on is used up, whatever the
    others hold; the verdict names the shortest such window.
  */
  lemma {:induction false} RefusedIffExhausted(w: Windows, c: Call, l: Limits)
    ensures VerdictOf(w, c, l) != Accepted <==> exists k :: Exhausted(w, c, l, k)
    ensures var v := VerdictOf(w, c, l);
      && (v == TooManyRequests <==> Exhausted(w, c, l, Requests))
      && (v == TooManyWrites <==> !Exhausted(w, c, l, Requests) && Exhausted(w, c, l, Writes))
      && (v == TooManyVolunteerWrites ==>
        Exhausted(w, c, l, VolunteerWrites) && !Exhausted(w, c, l, Requests) && !Exhausted(w, c, l, Writes))
  {
    var v := VerdictOf(w, c, l);
    forall k: Kind
      ensures Exhausted(w, c, l, k) ==> v != Accepted
    {
    }
    assert v == TooManyRequests ==> Exhausted(w, c, l, Requests);
    assert v == TooManyWrites ==> Exhausted(w, c, l, Writes);
    assert v == TooManyVolunteerWrites ==> Exhausted(w, c, l, VolunteerWrites);
  }

  // --------------------------------------------------------------- the limiter

  class RateWindows {
    var secondStarted: int
    var requestsThisSecond: nat
    var minuteStarted: int
    var writesThisMinute: nat
    var hourStarted: int
    var volunteerWritesThisHour: nat

    ghost function State(): Windows
      reads this
    {
      Windows(Window(secondStarted, requestsThisSecond), Window(minuteStarted, writesThisMinute),
              Window(hourStarted, volunteerWritesThisHour))
    }

    constructor (now: int, ghost l: Limits)
      ensures State() == Run(now, [], l)
    {
      secondStarted, requestsThisSecond := now, 0;
      minuteStarted, writesThisMinute := now, 0;
      hourStarted, volunteerWritesThisHour := now, 0;
    }

    method Check(c: Call, l: Limits) returns (v: Verdict)
      modifies this
      ensures v == VerdictOf(old(State()), c, l)
      ensures State() == After(old(State()), c, l)
    {
      if c.now - secondStarted >= SECOND {
        secondStarted, requestsThisSecond := c.now, 0;
      }
      if c.now - minuteStarted >= MINUTE {
        minuteStarted, writesThisMinute := c.now, 0;
      }
      if c.now - hourStarted >= HOUR {
        hourStarted, volunteerWritesThisHour := c.now, 0;
      }
      if requestsThisSecond >= l.requestsPerSecond {
        return TooManyRequests;
      }
      if c.write && writesThisMinute >= l.writesPerMinute {
        return TooManyWrites;
      }
      if c.volunteerWrite && volunteerWritesThisHour >= l.volunteerWritesPerHour {
        return TooManyVolunteerWrites;
      }
      requestsThisSecond := requestsThisSecond + 1;
      if c.write {
        writesThisMinute := writesThisMinute + 1;
      }
      if c.volunteerWrite {
        volunteerWritesThisHour := volunteerWritesThisHour + 1;
      }
      return Accepted;
    }
  }
}
