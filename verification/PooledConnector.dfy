/**
  The whole machine: the pool protocol and the connector protocol run side by side, and every adder
  thread of a refill is a `new_session` call of the connector. Every step of the machine is a step of
  the pool, of the connector, or of both at once, so all their invariants carry over; together they
  give the origin of every session the pool hands out.
 */
module PooledConnector {
  import P = PoolProtocol
  import Strategy = PoolStrategy
  import Safety = PoolSafety
  import C = ConnectorProtocol

  /** `origin[id]` is the endpoint session `id` is connected to. */
  datatype System = System(pool: P.State, con: C.State, origin: seq<C.Endpoint>)

  /** Steps of one part alone, and the four steps in which an adder and its call move together. */
  datatype Label =
    | PoolAlone(p: P.Label)
    | ConnectorAlone(c: C.Label)
    | SpawnCall
    | CallReturns(a: nat)
    | CallThrows(a: nat)
    | JoinCalls(f: Strategy.Factor)

  predicate Shared(l: P.Label) {
    l.Spawn? || l.Connected? || l.ConnectFailed? || l.Join?
  }

  /** What the throwing `new_session` of adder `a` ends with, once its call has returned. */
  function CallResult(s: System, a: nat): C.Thrown
    requires a < |s.con.callers| && s.con.callers[a].Done?
  {
    C.Throwing(s.con.callers[a].session, s.con.callers[a].ec)
  }

  ghost predicate Step(cfg: P.Config, s: System, l: Label, t: System) {
    match l
    case PoolAlone(p) =>
      !Shared(p) && P.Step(cfg, s.pool, p, t.pool) && t.con == s.con && t.origin == s.origin
    case ConnectorAlone(c) =>
      !c.Call? && !c.Retire? && C.Step(s.con, c, t.con) && t.pool == s.pool && t.origin == s.origin
    case SpawnCall =>
      P.Step(cfg, s.pool, P.Spawn, t.pool) && C.Step(s.con, C.Call(0), t.con) && t.origin == s.origin
    case CallReturns(a) =>
      && a < |s.con.callers| && s.con.callers[a].Done? && CallResult(s, a).Session?
      && P.Step(cfg, s.pool, P.Connected(a), t.pool) && t.con == s.con
      && t.origin == s.origin + [CallResult(s, a).endpoint]
    case CallThrows(a) =>
      && a < |s.con.callers| && s.con.callers[a].Done? && !CallResult(s, a).Session?
      && P.Step(cfg, s.pool, P.ConnectFailed(a), t.pool) && t.con == s.con && t.origin == s.origin
    case JoinCalls(f) =>
      P.Step(cfg, s.pool, P.Join(f), t.pool) && C.Step(s.con, C.Retire, t.con) && t.origin == s.origin
  }

  ghost predicate Init(cfg: P.Config, s: System) {
    P.Init(cfg, s.pool) && C.Init(s.con) && s.origin == []
  }

  ghost predicate ReachedIn(cfg: P.Config, k: nat, n: nat, s: System) {
    && |s.pool.held| <= k
    && if n == 0 then Init(cfg, s)
       else exists p, l :: ReachedIn(cfg, k, n - 1, p) && Step(cfg, p, l, s)
  }

  ghost predicate Reachable(cfg: P.Config, k: nat, s: System) {
    exists n: nat :: ReachedIn(cfg, k, n, s)
  }

  // ------------------------------------------------------------------------------------------
  // Every run of the machine is a run of each part

  lemma PoolMoves(cfg: P.Config, k: nat, s: System, l: Label, t: System)
    requires P.ReachableHolding(cfg, k, s.pool) && Step(cfg, s, l, t) && |t.pool.held| <= k
    ensures P.ReachableHolding(cfg, k, t.pool)
  {
    hide P.Next, C.Next, P.ReachableHolding;
    match l
    case PoolAlone(p) => P.Extend(cfg, k, s.pool, p, t.pool);
    case ConnectorAlone(_) =>
    case SpawnCall => P.Extend(cfg, k, s.pool, P.Spawn, t.pool);
    case CallReturns(a) => P.Extend(cfg, k, s.pool, P.Connected(a), t.pool);
    case CallThrows(a) => P.Extend(cfg, k, s.pool, P.ConnectFailed(a), t.pool);
    case JoinCalls(f) => P.Extend(cfg, k, s.pool, P.Join(f), t.pool);
  }

  lemma ConnectorMoves(cfg: P.Config, s: System, l: Label, t: System)
    requires C.Reachable(s.con) && Step(cfg, s, l, t)
    ensures C.Reachable(t.con)
  {
    hide P.Next, C.Next, C.Reachable;
    match l
    case ConnectorAlone(c) => C.Extend(s.con, c, t.con);
    case SpawnCall => C.Extend(s.con, C.Call(0), t.con);
    case JoinCalls(_) => C.Extend(s.con, C.Retire, t.con);
    case _ =>
  }

  /** A reachable machine consists of a reachable pool and a reachable connector. */
  lemma {:induction false} Projects(cfg: P.Config, k: nat, n: nat, s: System)
    requires ReachedIn(cfg, k, n, s)
    ensures P.ReachableHolding(cfg, k, s.pool) && C.Reachable(s.con)
  {
    hide Step, P.ReachableHolding, C.Reachable;
    if n == 0 {
      StartProjects(cfg, k, s);
    } else {
      var p, l :| ReachedIn(cfg, k, n - 1, p) && Step(cfg, p, l, s);
      Projects(cfg, k, n - 1, p);
      PoolMoves(cfg, k, p, l, s);
      ConnectorMoves(cfg, p, l, s);
    }
  }

  lemma StartProjects(cfg: P.Config, k: nat, s: System)
    requires Init(cfg, s) && |s.pool.held| <= k
    ensures P.ReachableHolding(cfg, k, s.pool) && C.Reachable(s.con)
  {
    assert P.ReachedIn(cfg, k, 0, s.pool);
    assert C.ReachedIn(0, s.con);
  }

  // ------------------------------------------------------------------------------------------
  // Where sessions come from

  ghost predicate Origins(s: System) {
    && |s.origin| == s.pool.created
    && forall id :: 0 <= id < |s.origin| ==> C.WasResolved(s.con.published, s.origin[id])
  }

  lemma LaterStillResolved(before: seq<seq<C.Endpoint>>, after: seq<seq<C.Endpoint>>, e: C.Endpoint)
    requires before <= after && C.WasResolved(before, e)
    ensures C.WasResolved(after, e)
  {
    var g :| 0 <= g < |before| && e in before[g];
    assert after[g] == before[g];
  }

  lemma PublishedGrows(s: C.State, l: C.Label, t: C.State)
    requires C.Reachable(s) && C.Step(s, l, t)
    ensures s.published <= t.published
  {
    hide C.ReachedIn;
    var n: nat :| C.ReachedIn(n, s);
    C.ReachedInv(n, s);
    if C.ByResolver(l) {
      C.ResolverKeeps(s, l, t);
    } else {
      C.CallerKeeps(s, l, t);
    }
  }

  lemma CreatedByAdder(cfg: P.Config, s: P.State, l: P.Label, t: P.State)
    requires P.InOrder(s) && P.Step(cfg, s, l, t)
    ensures t.created == s.created + if l.Connected? then 1 else 0
  {
    hide P.CallerNext, P.ClientNext, P.WatcherNext, P.AdderNext;
    match P.RoleOf(l)
    case ByCaller => P.CallerMoves(cfg, s, l, t, 0);
    case ByClient => P.ClientMoves(s, l, t, 0);
    case ByWatcher => P.WatcherMoves(cfg, s, l, t, 0);
    case ByAdder => P.AdderMoves(s, l, t, 0);
  }

  lemma ConnectorKeepsOrigins(s: System, l: C.Label, t: System)
    requires Origins(s) && C.Reachable(s.con) && C.Step(s.con, l, t.con)
    requires t.origin == s.origin && t.pool.created == s.pool.created
    ensures Origins(t)
  {
    hide C.Step, C.Reachable;
    PublishedGrows(s.con, l, t.con);
    forall id | 0 <= id < |t.origin|
      ensures C.WasResolved(t.con.published, t.origin[id])
    {
      LaterStillResolved(s.con.published, t.con.published, s.origin[id]);
    }
  }

  lemma OriginsKept(cfg: P.Config, s: System, l: Label, t: System)
    requires Origins(s) && P.InOrder(s.pool) && C.Reachable(s.con) && Step(cfg, s, l, t)
    ensures Origins(t)
  {
    hide P.Next, C.Next, C.Reachable, P.InOrder, C.WasResolved;
    match l
    case PoolAlone(p) => CreatedByAdder(cfg, s.pool, p, t.pool);
    case ConnectorAlone(c) => ConnectorKeepsOrigins(s, c, t);
    case SpawnCall =>
      CreatedByAdder(cfg, s.pool, P.Spawn, t.pool);
      ConnectorKeepsOrigins(s, C.Call(0), t);
    case CallReturns(a) =>
      CreatedByAdder(cfg, s.pool, P.Connected(a), t.pool);
      C.NewSessionIsHonest(s.con, a);
    case CallThrows(a) => CreatedByAdder(cfg, s.pool, P.ConnectFailed(a), t.pool);
    case JoinCalls(f) =>
      CreatedByAdder(cfg, s.pool, P.Join(f), t.pool);
      ConnectorKeepsOrigins(s, C.Retire, t);
  }

  lemma {:induction false} ReachedOrigins(cfg: P.Config, k: nat, n: nat, s: System)
    requires cfg.Valid() && ReachedIn(cfg, k, n, s)
    ensures Origins(s) && Safety.Safe(cfg, k, s.pool) && C.Reachable(s.con)
  {
    hide Step, P.ReachedIn, C.Reachable, Safety.Safe;
    Projects(cfg, k, n, s);
    var m: nat :| P.ReachedIn(cfg, k, m, s.pool);
    Safety.ReachedIsSafe(cfg, k, m, s.pool);
    if n != 0 {
      var p, l :| ReachedIn(cfg, k, n - 1, p) && Step(cfg, p, l, s);
      ReachedOrigins(cfg, k, n - 1, p);
      SafeIsOrdered(cfg, k, p.pool);
      OriginsKept(cfg, p, l, s);
    }
  }

  lemma SafeIsOrdered(cfg: P.Config, k: nat, s: P.State)
    requires Safety.Safe(cfg, k, s)
    ensures P.InOrder(s)
  {
  }

  /**
    Every session that exists anywhere -- listed, carried by an adder, in a client's hands -- was
    connected to an endpoint from a list some successful resolve published; and the bound on the number
    of connections holds with the connector in the loop.
   */
  lemma SessionsComeFromResolves(cfg: P.Config, k: nat, s: System, id: P.Session)
    requires cfg.Valid() && Reachable(cfg, k, s)
    requires P.InList(s.pool.pool, id) + multiset(s.pool.adders)[P.Carrying(id)] + s.pool.held[id] > 0
    ensures id < |s.origin| && C.WasResolved(s.con.published, s.origin[id])
    ensures Safety.Established(s.pool) <= cfg.size + k
  {
    hide ReachedIn, C.Reachable, P.InOrder;
    var n: nat :| ReachedIn(cfg, k, n, s);
    ReachedOrigins(cfg, k, n, s);
    assert P.Places(s.pool, id) == if id < s.pool.created then 1 else 0;
  }

  /** An adder never sees `new_session` return a null session without an error. */
  lemma AddersNeverSeeNull(cfg: P.Config, k: nat, s: System, a: nat)
    requires cfg.Valid() && Reachable(cfg, k, s)
    requires a < |s.con.callers| && s.con.callers[a].Done?
    ensures CallResult(s, a).Session? || (CallResult(s, a).Threw? && CallResult(s, a).code != 0)
  {
    hide ReachedIn, C.Reachable;
    var n: nat :| ReachedIn(cfg, k, n, s);
    Projects(cfg, k, n, s);
    C.SecondThrowUnreachable(s.con, a);
  }
}
