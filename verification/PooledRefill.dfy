/**
  Recovery of the whole machine: from every reachable state of pool and connector together, the watcher,
  its adders, the resolver and the clock alone can fill the pool. Each step by which the pool alone could
  do it is matched by steps of the machine, an adder's connecting by a whole `new_session` call.
 */
module PooledRefill {
  import opened Common
  import P = PoolProtocol
  import Strategy = PoolStrategy
  import Fill = PoolFill
  import Safety = PoolSafety
  import C = ConnectorProtocol
  import opened PooledConnector

  // ------------------------------------------------------------------------------------------
  // Adders and their calls

  /** Every adder has its call, made without an error; it has moved on only if the call has returned. */
  ghost predicate Paired(s: System) {
    && |s.con.callers| == |s.pool.adders|
    && (forall a :: 0 <= a < |s.con.callers| ==> s.con.callers[a].ec0 == 0)
    && (forall a :: 0 <= a < |s.pool.adders| && !s.pool.adders[a].Connecting? ==> s.con.callers[a].Done?)
  }

  /** Only the shared steps touch the list of adders or start one connecting. */
  lemma PoolKeepsAdders(cfg: P.Config, s: P.State, l: P.Label, t: P.State)
    requires !Shared(l) && P.Step(cfg, s, l, t)
    ensures |t.adders| == |s.adders|
    ensures forall a :: 0 <= a < |s.adders| ==> (t.adders[a].Connecting? <==> s.adders[a].Connecting?)
  {
    hide P.CallerNext, P.ClientNext, P.Signal, P.Kept;
    match P.RoleOf(l)
    case ByCaller => Fill.CallerEffect(cfg, s, l, t);
    case ByClient => Safety.ClientEffect(s, l, t);
    case ByWatcher =>
    case ByAdder =>
  }

  /** A connector step other than a new call or their retirement keeps what each call owes its adder. */
  lemma ConnectorKeepsCalls(s: C.State, l: C.Label, t: C.State)
    requires !l.Call? && !l.Retire? && C.Step(s, l, t)
    ensures |t.callers| == |s.callers|
    ensures forall a :: 0 <= a < |s.callers| ==>
      t.callers[a].ec0 == s.callers[a].ec0 && (s.callers[a].Done? ==> t.callers[a] == s.callers[a])
  {
    hide C.ResolverNext;
    if C.ByResolver(l) {
      ResolverLeavesCalls(s, l, t);
    }
  }

  lemma ResolverLeavesCalls(s: C.State, l: C.Label, t: C.State)
    requires C.ByResolver(l) && C.ResolverNext(s, l) == Some(t)
    ensures t.callers == s.callers
  {
  }

  lemma PairedKept(cfg: P.Config, s: System, l: Label, t: System)
    requires Paired(s) && Step(cfg, s, l, t)
    ensures Paired(t)
  {
    hide P.Step, C.Step, CallResult;
    match l
    case PoolAlone(p) => PoolKeepsAdders(cfg, s.pool, p, t.pool);
    case ConnectorAlone(c) => ConnectorKeepsCalls(s.con, c, t.con);
    case SpawnCall => SpawnAdds(cfg, s, t);
    case CallReturns(a) => AdderMovesOn(cfg, s.pool, P.Connected(a), t.pool);
    case CallThrows(a) => AdderMovesOn(cfg, s.pool, P.ConnectFailed(a), t.pool);
    case JoinCalls(f) => JoinClears(cfg, s, f, t);
  }

  lemma SpawnAdds(cfg: P.Config, s: System, t: System)
    requires P.Step(cfg, s.pool, P.Spawn, t.pool) && C.Step(s.con, C.Call(0), t.con)
    ensures t.pool.adders == s.pool.adders + [P.Connecting] && t.con.callers == s.con.callers + [C.Blocked(0)]
  {
  }

  lemma AdderMovesOn(cfg: P.Config, s: P.State, l: P.Label, t: P.State)
    requires (l.Connected? || l.ConnectFailed?) && P.Step(cfg, s, l, t)
    ensures l.a < |s.adders| && s.adders[l.a].Connecting?
    ensures t.adders == s.adders[l.a := t.adders[l.a]] && !t.adders[l.a].Connecting? && t.held == s.held
  {
  }

  lemma JoinClears(cfg: P.Config, s: System, f: Strategy.Factor, t: System)
    requires P.Step(cfg, s.pool, P.Join(f), t.pool) && C.Step(s.con, C.Retire, t.con)
    ensures t.pool.adders == [] && t.con.callers == []
  {
  }

  lemma {:induction false} ReachedPaired(cfg: P.Config, k: nat, n: nat, s: System)
    requires ReachedIn(cfg, k, n, s)
    ensures Paired(s)
  {
    hide Step;
    if n != 0 {
      var p, l :| ReachedIn(cfg, k, n - 1, p) && Step(cfg, p, l, s);
      ReachedPaired(cfg, k, n - 1, p);
      PairedKept(cfg, p, l, s);
    }
  }

  /**
    An adder moves on exactly as its call ended: with the session the call returned, connected to the
    endpoint it tried, or finished without one if the call threw.
   */
  lemma AdderFollowsItsCall(cfg: P.Config, k: nat, s: System, l: Label, t: System, a: nat)
    requires Reachable(cfg, k, s) && Step(cfg, s, l, t)
    requires a < |s.pool.adders| && s.pool.adders[a].Connecting?
    requires a < |t.pool.adders| && !t.pool.adders[a].Connecting?
    ensures a < |s.con.callers| && s.con.callers[a].Done?
    ensures s.con.callers[a].session.Some? ==>
      && t.pool.adders[a] == P.Carrying(s.pool.created) && t.pool.created == s.pool.created + 1
      && t.origin == s.origin + s.con.callers[a].tried && |s.con.callers[a].tried| == 1
    ensures s.con.callers[a].session.None? ==>
      t.pool.adders[a] == P.Done && t.pool.created == s.pool.created && t.origin == s.origin
  {
    MachineInv(cfg, k, s);
    hide Reachable, P.Step, C.Step, C.ResolverInv;
    match l
    case PoolAlone(p) => PoolKeepsAdders(cfg, s.pool, p, t.pool);
    case ConnectorAlone(_) =>
    case SpawnCall => SpawnAdds(cfg, s, t);
    case CallReturns(b) => FollowsReturn(cfg, s, b, t);
    case CallThrows(b) => FollowsThrow(cfg, s, b, t);
    case JoinCalls(f) => JoinClears(cfg, s, f, t);
  }

  lemma FollowsReturn(cfg: P.Config, s: System, a: nat, t: System)
    requires P.Step(cfg, s.pool, P.Connected(a), t.pool)
    ensures a < |s.pool.adders| && t.pool.adders == s.pool.adders[a := P.Carrying(s.pool.created)]
    ensures t.pool.created == s.pool.created + 1
  {
  }

  lemma FollowsThrow(cfg: P.Config, s: System, a: nat, t: System)
    requires P.Step(cfg, s.pool, P.ConnectFailed(a), t.pool)
    ensures a < |s.pool.adders| && t.pool.adders == s.pool.adders[a := P.Done]
    ensures t.pool.created == s.pool.created
  {
  }

  // ------------------------------------------------------------------------------------------
  // Runs of the machine without clients

  /** A step of the machine in which no client takes part. */
  predicate Unaided(l: Label) {
    l.PoolAlone? ==> Fill.Unaided(l.p)
  }

  ghost predicate PathIn(cfg: P.Config, o: System, n: nat, s: System) {
    if n == 0 then s == o
    else exists p, l :: PathIn(cfg, o, n - 1, p) && Unaided(l) && Step(cfg, p, l, s)
  }

  ghost predicate From(cfg: P.Config, o: System, s: System) {
    exists n: nat :: PathIn(cfg, o, n, s)
  }

  lemma Stay(cfg: P.Config, o: System)
    ensures From(cfg, o, o)
  {
    assert PathIn(cfg, o, 0, o);
  }

  lemma Advance(cfg: P.Config, o: System, s: System, l: Label, t: System)
    requires From(cfg, o, s) && Unaided(l) && Step(cfg, s, l, t)
    ensures From(cfg, o, t)
  {
    hide Step;
    var n: nat :| PathIn(cfg, o, n, s);
    assert PathIn(cfg, o, n + 1 - 1, s) && Step(cfg, s, l, t);
    assert PathIn(cfg, o, n + 1, t);
  }

  /** A step of the connector alone. */
  lemma Connector(cfg: P.Config, o: System, s: System, l: C.Label) returns (t: System)
    requires From(cfg, o, s) && C.Inv(s.con) && Paired(s)
    requires C.Fair(l) && !l.Call? && !l.Retire? && C.Next(s.con, l).Some?
    ensures t == s.(con := C.Next(s.con, l).value)
    ensures From(cfg, o, t) && C.Inv(t.con) && Paired(t)
  {
    hide C.ResolverNext, C.CallerNext, From, Paired, C.Inv, P.Step;
    t := s.(con := C.Next(s.con, l).value);
    Advance(cfg, o, s, ConnectorAlone(l), t);
    PairedKept(cfg, s, ConnectorAlone(l), t);
    if C.ByResolver(l) {
      C.ResolverKeeps(s.con, l, t.con);
    } else {
      C.CallerKeeps(s.con, l, t.con);
    }
  }

  /** The part of the machine that work on the connector alone leaves as it is. */
  ghost predicate SameBut(s: System, t: System) {
    t.pool == s.pool && t.origin == s.origin && (s.con.done ==> t.con.done)
  }

  // ------------------------------------------------------------------------------------------
  // Driving the connector

  function TurnsLeft(r: C.Resolver): nat {
    match r
    case Resolving(_) => 6
    case Answered(_, _) => 5
    case Reported(_, _) => 4
    case Cleared(_, _) => 3
    case Published => 2
    case Announcing => 1
    case Waiting => 0
  }

  /** The resolver's next step; a resolve under way yields some endpoint. */
  function NextTurn(r: C.Resolver): C.Label
    requires !r.Waiting?
  {
    match r
    case Resolving(_) => C.Resolve(C.Resolved([0]))
    case Answered(_, _) => C.Report
    case Reported(_, result) => if result.Failed? then C.Retry else C.Clear
    case Cleared(_, _) => C.Publish
    case Published => C.Unlock
    case Announcing => C.Announce
  }

  /** The turn under way may still fail. */
  predicate MayFail(r: C.Resolver) {
    r.Waiting? || ((r.Answered? || r.Reported?) && r.result.Failed?)
  }

  lemma TurnEnabled(s: C.State)
    requires !s.resolver.Waiting?
    ensures var l := NextTurn(s.resolver);
      && C.Fair(l) && C.ByResolver(l) && C.Next(s, l).Some?
      && var t := C.Next(s, l).value;
         && TurnsLeft(t.resolver) < TurnsLeft(s.resolver) && t.callers == s.callers
         && (s.done ==> t.done) && (!MayFail(s.resolver) ==> t.done || !MayFail(t.resolver))
  {
  }

  /** The resolver can finish its turn; one that cannot fail announces endpoints. */
  lemma {:induction false} TurnEnds(cfg: P.Config, o: System, s: System) returns (t: System)
    requires From(cfg, o, s) && C.Inv(s.con) && Paired(s)
    ensures From(cfg, o, t) && C.Inv(t.con) && Paired(t) && SameBut(s, t)
    ensures t.con.resolver.Waiting? && t.con.callers == s.con.callers
    ensures !MayFail(s.con.resolver) ==> t.con.done
    decreases TurnsLeft(s.con.resolver)
  {
    hide C.Next, From, Paired, C.Inv;
    if s.con.resolver.Waiting? {
      t := s;
    } else {
      TurnEnabled(s.con);
      var u := Connector(cfg, o, s, NextTurn(s.con.resolver));
      t := TurnEnds(cfg, o, u);
    }
  }

  /** Endpoints can always be announced. */
  lemma Announces(cfg: P.Config, o: System, s: System) returns (t: System)
    requires From(cfg, o, s) && C.Inv(s.con) && Paired(s)
    ensures From(cfg, o, t) && C.Inv(t.con) && Paired(t) && SameBut(s, t)
    ensures t.con.done && t.con.callers == s.con.callers
  {
    hide From, Paired, C.CallerNext;
    t := TurnEnds(cfg, o, s);
    if !t.con.done {
      var u := Connector(cfg, o, t, C.Lock);
      t := TurnEnds(cfg, o, u);
    }
  }

  /** A call that has met no failure so far. */
  predicate Promising(c: C.Caller) {
    c.Blocked? || c.Passed? || c.Trying? || (c.Done? && c.session.Some?)
  }

  /** Only call `a` has moved, and it has returned; a promising one with a session. */
  ghost predicate Returned(s: System, a: nat, t: System)
    requires a < |s.con.callers|
  {
    && SameBut(s, t) && |t.con.callers| == |s.con.callers|
    && (forall b :: 0 <= b < |s.con.callers| && b != a ==> t.con.callers[b] == s.con.callers[b])
    && t.con.callers[a].Done? && (Promising(s.con.callers[a]) ==> t.con.callers[a].session.Some?)
  }

  /** The next step of a call in a state in which it is not held up. */
  function NextMove(s: C.State, a: nat): C.Label
    requires a < |s.callers| && !s.callers[a].Done?
  {
    match s.callers[a]
    case Blocked(_) => C.Pass(a)
    case Passed(_) => C.Snapshot(a, s.endpoints)
    case Trying(_, _) => C.ConnectOk(a)
    case Broken(_, _, _) => C.Settle(a)
    case Asking(_, _, _) => C.Ask(a)
  }

  function MovesLeft(c: C.Caller): nat {
    match c
    case Blocked(_) => 3
    case Passed(_) => 2
    case Trying(_, _) => 1
    case Broken(_, _, _) => 2
    case Asking(_, _, _) => 1
    case Done(_, _, _, _, _) => 0
  }

  lemma MoveEnabled(s: C.State, a: nat)
    requires C.Inv(s) && a < |s.callers| && !s.callers[a].Done?
    requires s.done && s.resolver.Waiting?
    ensures var l := NextMove(s, a);
      && C.Fair(l) && !C.ByResolver(l) && !l.Call? && !l.Retire? && C.Next(s, l).Some?
      && var t := C.Next(s, l).value;
         && t.done && t.resolver == s.resolver && |t.callers| == |s.callers|
         && (forall b :: 0 <= b < |s.callers| && b != a ==> t.callers[b] == s.callers[b])
         && MovesLeft(t.callers[a]) < MovesLeft(s.callers[a])
         && (Promising(s.callers[a]) ==> Promising(t.callers[a]))
  {
  }

  lemma {:induction false} CallGoesThrough(cfg: P.Config, o: System, s: System, a: nat) returns (t: System)
    requires From(cfg, o, s) && C.Inv(s.con) && Paired(s) && a < |s.con.callers|
    requires s.con.done && s.con.resolver.Waiting?
    ensures From(cfg, o, t) && C.Inv(t.con) && Paired(t) && Returned(s, a, t)
    decreases MovesLeft(s.con.callers[a])
  {
    hide C.Next, From, Paired, C.Inv;
    if s.con.callers[a].Done? {
      t := s;
    } else {
      MoveEnabled(s.con, a);
      var u := Connector(cfg, o, s, NextMove(s.con, a));
      t := CallGoesThrough(cfg, o, u, a);
    }
  }

  /** Every call can be brought to its end, and a promising one to a session. */
  lemma CallReturnsAtLast(cfg: P.Config, o: System, s: System, a: nat) returns (t: System)
    requires From(cfg, o, s) && C.Inv(s.con) && Paired(s) && a < |s.con.callers|
    ensures From(cfg, o, t) && C.Inv(t.con) && Paired(t) && Returned(s, a, t)
  {
    hide C.Next, From, Paired, C.Inv;
    t := Announces(cfg, o, s);
    t := TurnEnds(cfg, o, t);
    t := CallGoesThrough(cfg, o, t, a);
  }

  // ------------------------------------------------------------------------------------------
  // Matching the pool's own steps

  /** The machine is in a state from which no call need fail. */
  ghost predicate Hopeful(s: System) {
    && C.Inv(s.con) && Paired(s)
    && forall a :: 0 <= a < |s.pool.adders| && s.pool.adders[a].Connecting? ==> Promising(s.con.callers[a])
  }

  /** A session is handed over only by a call without an error: its code is still the initial zero. */
  lemma ResultIsSession(s: System, a: nat)
    requires C.Inv(s.con) && Paired(s) && a < |s.con.callers|
    requires s.con.callers[a].Done? && s.con.callers[a].session.Some?
    ensures CallResult(s, a) == C.Session(s.con.callers[a].session.value)
  {
    assert C.CallerInv(s.con.done, s.con.published, s.con.callers[a]);
  }

  /** An adder connects: its call runs to the end and returns a session. */
  lemma MatchConnected(cfg: P.Config, o: System, s: System, a: nat, q: P.State) returns (t: System)
    requires From(cfg, o, s) && Hopeful(s) && P.Step(cfg, s.pool, P.Connected(a), q)
    ensures From(cfg, o, t) && Hopeful(t) && t.pool == q
  {
    hide From, C.Inv, P.CallerNext, P.ClientNext, P.WatcherNext;
    var u := CallReturnsAtLast(cfg, o, s, a);
    ResultIsSession(u, a);
    t := u.(pool := q, origin := u.origin + [CallResult(u, a).endpoint]);
    Advance(cfg, o, u, CallReturns(a), t);
  }

  lemma MatchSpawn(cfg: P.Config, o: System, s: System, q: P.State) returns (t: System)
    requires From(cfg, o, s) && Hopeful(s) && P.Step(cfg, s.pool, P.Spawn, q)
    ensures From(cfg, o, t) && Hopeful(t) && t.pool == q
  {
    hide From, P.CallerNext, P.ClientNext, P.AdderNext;
    t := s.(pool := q, con := C.Next(s.con, C.Call(0)).value);
    C.CallerKeeps(s.con, C.Call(0), t.con);
    Advance(cfg, o, s, SpawnCall, t);
  }

  lemma MatchJoin(cfg: P.Config, o: System, s: System, l: P.Label, q: P.State) returns (t: System)
    requires From(cfg, o, s) && Hopeful(s) && l.Join? && P.Step(cfg, s.pool, l, q)
    ensures From(cfg, o, t) && Hopeful(t) && t.pool == q
  {
    hide From, P.CallerNext, P.ClientNext, P.AdderNext;
    assert C.AllDone(s.con.callers);
    t := s.(pool := q, con := C.Next(s.con, C.Retire).value);
    C.CallerKeeps(s.con, C.Retire, t.con);
    Advance(cfg, o, s, JoinCalls(l.f), t);
  }

  lemma MatchAlone(cfg: P.Config, o: System, s: System, l: P.Label, q: P.State) returns (t: System)
    requires From(cfg, o, s) && Hopeful(s) && !Shared(l) && Fill.Unaided(l) && P.Step(cfg, s.pool, l, q)
    ensures From(cfg, o, t) && Hopeful(t) && t.pool == q
  {
    hide From, P.Step, C.Inv;
    t := s.(pool := q);
    PoolKeepsAdders(cfg, s.pool, l, q);
    Advance(cfg, o, s, PoolAlone(l), t);
  }

  lemma Match(cfg: P.Config, o: System, s: System, l: P.Label, q: P.State) returns (t: System)
    requires From(cfg, o, s) && Hopeful(s) && Fill.Unaided(l) && P.Step(cfg, s.pool, l, q)
    ensures From(cfg, o, t) && Hopeful(t) && t.pool == q
  {
    hide From, P.Next, Hopeful;
    if l.Connected? {
      t := MatchConnected(cfg, o, s, l.a, q);
    } else if l.Spawn? {
      t := MatchSpawn(cfg, o, s, q);
    } else if l.Join? {
      t := MatchJoin(cfg, o, s, l, q);
    } else {
      t := MatchAlone(cfg, o, s, l, q);
    }
  }

  /** Whatever the pool could do by itself, the machine can do. */
  lemma {:induction false} MatchPath(cfg: P.Config, o: System, s: System, n: nat, q: P.State) returns (t: System)
    requires From(cfg, o, s) && Hopeful(s) && Fill.PathIn(cfg, s.pool, n, q)
    ensures From(cfg, o, t) && Hopeful(t) && t.pool == q
  {
    hide From, P.Step, Hopeful;
    if n == 0 {
      t := s;
    } else {
      var p, l :| Fill.PathIn(cfg, s.pool, n - 1, p) && Fill.Unaided(l) && P.Step(cfg, p, l, q);
      var u := MatchPath(cfg, o, s, n - 1, p);
      t := Match(cfg, o, u, l, q);
    }
  }

  // ------------------------------------------------------------------------------------------
  // Recovery

  /** One adder's call is brought to its end, well or badly, and the adder moves on. */
  lemma Settles(cfg: P.Config, o: System, s: System, a: nat) returns (t: System)
    requires From(cfg, o, s) && C.Inv(s.con) && Paired(s)
    requires a < |s.pool.adders| && s.pool.adders[a].Connecting?
    ensures From(cfg, o, t) && C.Inv(t.con) && Paired(t)
    ensures multiset(t.pool.adders)[P.Connecting] < multiset(s.pool.adders)[P.Connecting]
  {
    hide From, C.Inv, P.Next, CallResult;
    var u := CallReturnsAtLast(cfg, o, s, a);
    MayMoveOn(cfg, u.pool, a);
    if CallResult(u, a).Session? {
      var q := P.Next(cfg, u.pool, P.Connected(a)).value;
      t := u.(pool := q, origin := u.origin + [CallResult(u, a).endpoint]);
      Advance(cfg, o, u, CallReturns(a), t);
      PairedKept(cfg, u, CallReturns(a), t);
      AdderMovesOn(cfg, u.pool, P.Connected(a), q);
    } else {
      t := u.(pool := P.Next(cfg, u.pool, P.ConnectFailed(a)).value);
      Advance(cfg, o, u, CallThrows(a), t);
      PairedKept(cfg, u, CallThrows(a), t);
      AdderMovesOn(cfg, u.pool, P.ConnectFailed(a), t.pool);
    }
  }

  lemma MayMoveOn(cfg: P.Config, s: P.State, a: nat)
    requires a < |s.adders| && s.adders[a].Connecting?
    ensures P.Next(cfg, s, P.Connected(a)).Some? && P.Next(cfg, s, P.ConnectFailed(a)).Some?
  {
  }

  lemma {:induction false} AllSettle(cfg: P.Config, o: System, s: System) returns (t: System)
    requires From(cfg, o, s) && C.Inv(s.con) && Paired(s)
    ensures From(cfg, o, t) && Hopeful(t)
    decreases multiset(s.pool.adders)[P.Connecting]
  {
    hide From, C.Inv, Paired;
    if a :| 0 <= a < |s.pool.adders| && s.pool.adders[a].Connecting? {
      var u := Settles(cfg, o, s, a);
      t := AllSettle(cfg, o, u);
    } else {
      t := s;
    }
  }

  lemma UnaidedHeld(cfg: P.Config, s: System, l: Label, t: System)
    requires Unaided(l) && Step(cfg, s, l, t)
    ensures t.pool.held == s.pool.held
  {
    hide P.Next, C.Step;
    match l
    case PoolAlone(p) => Fill.UnaidedHeld(cfg, s.pool, p, t.pool);
    case ConnectorAlone(_) =>
    case SpawnCall => Fill.UnaidedHeld(cfg, s.pool, P.Spawn, t.pool);
    case CallReturns(a) => Fill.UnaidedHeld(cfg, s.pool, P.Connected(a), t.pool);
    case CallThrows(a) => AdderMovesOn(cfg, s.pool, P.ConnectFailed(a), t.pool);
    case JoinCalls(f) => Fill.UnaidedHeld(cfg, s.pool, P.Join(f), t.pool);
  }

  lemma {:induction false} PathReaches(cfg: P.Config, k: nat, o: System, n: nat, s: System)
    requires Reachable(cfg, k, o) && |o.pool.held| <= k && PathIn(cfg, o, n, s)
    ensures Reachable(cfg, k, s) && s.pool.held == o.pool.held
  {
    hide Step, Reachable, Unaided;
    if n != 0 {
      var p, l :| PathIn(cfg, o, n - 1, p) && Unaided(l) && Step(cfg, p, l, s);
      PathReaches(cfg, k, o, n - 1, p);
      UnaidedHeld(cfg, p, l, s);
      ExtendMachine(cfg, k, p, l, s);
    }
  }

  lemma ExtendMachine(cfg: P.Config, k: nat, s: System, l: Label, t: System)
    requires Reachable(cfg, k, s) && Step(cfg, s, l, t) && |t.pool.held| <= k
    ensures Reachable(cfg, k, t)
  {
    hide Step;
    var n: nat :| ReachedIn(cfg, k, n, s);
    assert ReachedIn(cfg, k, n + 1 - 1, s) && Step(cfg, s, l, t);
    assert ReachedIn(cfg, k, n + 1, t);
  }

  lemma FromReaches(cfg: P.Config, k: nat, o: System, s: System)
    requires Reachable(cfg, k, o) && From(cfg, o, s)
    ensures Reachable(cfg, k, s) && s.pool.held == o.pool.held && P.ReachableHolding(cfg, k, s.pool)
  {
    hide PathIn, Step, P.ReachableHolding, C.Reachable;
    var m: nat :| ReachedIn(cfg, k, m, o);
    var n: nat :| PathIn(cfg, o, n, s);
    PathReaches(cfg, k, o, n, s);
    var m': nat :| ReachedIn(cfg, k, m', s);
    Projects(cfg, k, m', s);
  }

  /**
    The machine can always recover: from every reachable state, whatever calls are failing and whatever
    the resolver is doing, some run in which no client takes part fills the pool as far as the pool alone
    could be filled, while clients keep what they hold.
   */
  lemma MachineCanRefill(cfg: P.Config, k: nat, s: System)
    requires cfg.Valid() && Reachable(cfg, k, s)
    ensures exists t :: From(cfg, s, t) && Fill.Peak(cfg) <= |t.pool.pool| && t.pool.held == s.pool.held
  {
    hide ReachedIn, From, P.ReachedIn, Hopeful, C.Inv, Paired, Fill.PathIn;
    Stay(cfg, s);
    MachineInv(cfg, k, s);
    var u := AllSettle(cfg, s, s);
    FromReaches(cfg, k, s, u);
    Fill.CanAlwaysRefill(cfg, k, u.pool);
    var q :| Fill.From(cfg, u.pool, q) && Fill.Peak(cfg) <= |q.pool| && q.held == u.pool.held;
    var n: nat :| Fill.PathIn(cfg, u.pool, n, q);
    var t := MatchPath(cfg, s, u, n, q);
  }

  lemma MachineInv(cfg: P.Config, k: nat, s: System)
    requires Reachable(cfg, k, s)
    ensures C.Inv(s.con) && Paired(s)
  {
    hide ReachedIn, C.ReachedIn, C.Inv, Paired, P.ReachableHolding;
    var n: nat :| ReachedIn(cfg, k, n, s);
    ReachedPaired(cfg, k, n, s);
    Projects(cfg, k, n, s);
    var m: nat :| C.ReachedIn(m, s.con);
    C.ReachedInv(m, s.con);
  }
}
