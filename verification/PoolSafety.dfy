/**
  Safety of the connection pool over every interleaving: the size bound, conservation of sessions,
  first-in-first-out hand-out, honest replies and bounded back-off.
 */
module PoolSafety {
  import opened Common
  import opened PoolStrategy
  import opened PoolProtocol

  // ------------------------------------------------------------------------------------------
  // Each step keeps each invariant

  lemma ConservationKept(cfg: Config, s: State, l: Label, t: State)
    requires InOrder(s) && Conserved(s) && Step(cfg, s, l, t)
    ensures Conserved(t)
  {
    hide CallerNext, ClientNext, WatcherNext, AdderNext;
    forall id: Session
      ensures Places(t, id) == if id < t.created then 1 else 0
    {
      match RoleOf(l)
      case ByCaller => CallerMoves(cfg, s, l, t, id);
      case ByClient => ClientMoves(s, l, t, id);
      case ByWatcher => WatcherMoves(cfg, s, l, t, id);
      case ByAdder => AdderMoves(s, l, t, id);
    }
  }

  /** All sessions, wherever they are. */
  ghost function Total(s: State): nat {
    |s.pool| + Carriers(s.adders) + |s.held| + |s.destroyed|
  }

  /** Sessions in the list, in clients' hands, or still to come from the running refill. */
  ghost function Budget(s: State): nat {
    |s.pool| + Outstanding(s) + |s.held|
  }

  /** What a step does to the counts; only a sweep can raise the budget. */
  ghost predicate Counted(cfg: Config, s: State, t: State) {
    && Total(t) - t.created == Total(s) - s.created
    && (Budget(t) <= Budget(s) || Budget(t) <= cfg.size + |t.held|)
    && |t.clients| == |s.clients|
  }

  /** The watcher and its strategy are untouched, and no session is added to the budget. */
  ghost predicate SameWork(s: State, t: State) {
    && s.now <= t.now && t.watcher == s.watcher && t.strategy == s.strategy
    && Budget(t) <= Budget(s)
    && (s.adders == [] ==> t.adders == [])
  }

  lemma SucceedCounted(cfg: Config, s: State, c: nat, call: Call)
    requires s.pool != [] && c < |s.clients|
    ensures Counted(cfg, s, Succeed(s, c, call)) && SameWork(s, Succeed(s, c, call))
  {
  }

  lemma CallerCounted(cfg: Config, s: State, l: Label, t: State)
    requires RoleOf(l).ByCaller? && CallerNext(cfg, s, l) == Some(t)
    ensures Counted(cfg, s, t) && SameWork(s, t)
  {
    hide Succeed;
    if s.pool != [] {
      forall call {
        SucceedCounted(cfg, s, l.c, call);
      }
    }
  }

  /** A client elsewhere may return a session or drop it, and touches no thread of the refill. */
  lemma ClientEffect(s: State, l: Label, t: State)
    requires RoleOf(l).ByClient? && ClientNext(s, l) == Some(t)
    ensures |t.clients| == |s.clients| && s.now <= t.now
    ensures t.watcher == s.watcher && t.strategy == s.strategy && t.adders == s.adders && t.created == s.created
    ensures t.added == s.added
    ensures |t.pool| + |t.held| + |t.destroyed| == |s.pool| + |s.held| + |s.destroyed|
    ensures |t.pool| + |t.held| <= |s.pool| + |s.held|
  {
    hide Signal;
    if l.Notify? {
      SignalSize(s.clients[l.c := Client.Ready], l.target);
    }
  }

  lemma SignalSize(clients: seq<Client>, target: Option<nat>)
    requires Signal(clients, target).Some?
    ensures |Signal(clients, target).value| == |clients|
  {
  }

  lemma ClientCounted(cfg: Config, s: State, l: Label, t: State)
    requires RoleOf(l).ByClient? && ClientNext(s, l) == Some(t)
    ensures Counted(cfg, s, t) && SameWork(s, t)
  {
    hide ClientNext, Carriers;
    ClientEffect(s, l, t);
  }

  function Busy(a: Adder): nat {
    if a.Connecting? || a.Carrying? then 1 else 0
  }

  lemma OutstandingUpdate(s: State, a: nat, pc: Adder)
    requires a < |s.adders|
    ensures Outstanding(SetAdder(s, a, pc)) == Outstanding(s) - Busy(s.adders[a]) + Busy(pc)
  {
    CarriersUpdate(s.adders, a, pc);
  }

  /** An adder's step changes one adder, and the other counts by what that adder did. */
  lemma AdderEffect(s: State, l: Label, t: State)
    requires RoleOf(l).ByAdder? && AdderNext(s, l) == Some(t)
    ensures l.a < |s.adders| && t.adders == SetAdder(s, l.a, t.adders[l.a]).adders
    ensures t.watcher == s.watcher && t.strategy == s.strategy && t.now == s.now && t.held == s.held
    ensures |t.clients| == |s.clients|
    ensures |t.pool| == |s.pool| + (if l.AdderAppend? then 1 else 0)
    ensures |t.destroyed| == |s.destroyed| + (if l.AdderDrop? then 1 else 0)
    ensures t.created == s.created + (if l.Connected? then 1 else 0)
    ensures s.adders[l.a].Carrying? <==> l.AdderAppend? || l.AdderDrop?
    ensures t.adders[l.a].Carrying? <==> l.Connected?
    ensures Busy(t.adders[l.a]) <= Busy(s.adders[l.a]) - (if l.AdderAppend? then 1 else 0)
  {
  }

  lemma AdderCounted(cfg: Config, s: State, l: Label, t: State)
    requires RoleOf(l).ByAdder? && AdderNext(s, l) == Some(t)
    ensures Counted(cfg, s, t) && SameWork(s, t)
  {
    AdderEffect(s, l, t);
    hide AdderNext, Busy, Carriers;
    OutstandingUpdate(s, l.a, t.adders[l.a]);
    CarriersUpdate(s.adders, l.a, t.adders[l.a]);
    assert Outstanding(t) == Outstanding(SetAdder(s, l.a, t.adders[l.a]));
  }

  lemma WatcherCounted(cfg: Config, s: State, l: Label, t: State)
    requires cfg.Valid() && WatcherInv(cfg, s)
    requires RoleOf(l).ByWatcher? && (l.Join? ==> l.f.Valid()) && WatcherNext(cfg, s, l) == Some(t)
    ensures Counted(cfg, s, t) && WatcherInv(cfg, t)
    ensures !l.Sweep? ==> Budget(t) <= Budget(s)
  {
    match l
    case Sweep =>
    case Refill =>
      if s.watcher.vacant != 0 {
        AttemptsFitVacancy(s.strategy, s.watcher.vacant, s.now);
      }
    case Spawn => CarriersAppend(s.adders, Connecting);
    case Join(_) => NothingCarried(s.adders);
  }

  lemma CountsKept(cfg: Config, s: State, l: Label, t: State)
    requires cfg.Valid() && WatcherInv(cfg, s) && Step(cfg, s, l, t)
    ensures Counted(cfg, s, t) && WatcherInv(cfg, t)
    ensures !l.Sweep? ==> Budget(t) <= Budget(s)
  {
    hide CallerNext, ClientNext, WatcherNext, AdderNext;
    match RoleOf(l)
    case ByCaller => CallerCounted(cfg, s, l, t);
    case ByClient => ClientCounted(cfg, s, l, t);
    case ByWatcher => WatcherCounted(cfg, s, l, t);
    case ByAdder => AdderCounted(cfg, s, l, t);
  }

  ghost predicate Safe(cfg: Config, k: nat, s: State) {
    && InOrder(s)
    && Conserved(s)
    && Total(s) == s.created
    && WatcherInv(cfg, s)
    && Budget(s) <= cfg.size + k
    && |s.clients| == cfg.clients
  }

  lemma {:induction false} ReachedIsSafe(cfg: Config, k: nat, n: nat, s: State)
    requires cfg.Valid() && ReachedIn(cfg, k, n, s)
    ensures Safe(cfg, k, s)
  {
    hide Next;
    if n != 0 {
      var p, l :| ReachedIn(cfg, k, n - 1, p) && Step(cfg, p, l, s);
      ReachedIsSafe(cfg, k, n - 1, p);
      OrderKept(cfg, p, l, s);
      ConservationKept(cfg, p, l, s);
      CountsKept(cfg, p, l, s);
    }
  }

  // ------------------------------------------------------------------------------------------
  // The theorems

  /** Connections that exist: pooled, on their way into the pool, or in clients' hands. */
  ghost function Established(s: State): nat {
    |s.pool| + Carriers(s.adders) + |s.held|
  }

  /**
    If clients never hold more than k sessions at once, the list, the sessions a running refill may
    still add and the sessions in clients' hands never exceed the pool size plus k together.
   */
  lemma SizeBound(cfg: Config, k: nat, s: State)
    requires cfg.Valid() && ReachableHolding(cfg, k, s)
    ensures |s.pool| + Outstanding(s) + |s.held| <= cfg.size + k
    ensures Established(s) <= cfg.size + k
  {
    hide ReachedIn;
    var n: nat :| ReachedIn(cfg, k, n, s);
    ReachedIsSafe(cfg, k, n, s);
  }

  /** Every established session is in exactly one place, and the places account for all of them. */
  lemma SessionsConserved(cfg: Config, s: State)
    requires cfg.Valid() && Reachable(cfg, s)
    ensures forall id: Session ::
      InList(s.pool, id) + multiset(s.adders)[Carrying(id)] + s.held[id] + InList(s.destroyed, id)
      == if id < s.created then 1 else 0
    ensures |s.pool| + Carriers(s.adders) + |s.held| + |s.destroyed| == s.created
  {
    hide ReachedIn;
    var k: nat :| ReachableHolding(cfg, k, s);
    var n: nat :| ReachedIn(cfg, k, n, s);
    ReachedIsSafe(cfg, k, n, s);
    forall id: Session
      ensures InList(s.pool, id) + multiset(s.adders)[Carrying(id)] + s.held[id] + InList(s.destroyed, id)
           == if id < s.created then 1 else 0
    {
      assert Places(s, id) == if id < s.created then 1 else 0;
    }
  }

  /** What a call answers its client in the step labelled `l`. */
  datatype Reply = NoReply | Got(session: Session) | NonEmpty | NotFound | TimedOut

  function ReplyOf(cfg: Config, s: State, l: Label): Reply {
    if l.LockTimeout? then TimedOut
    else if !RoleOf(l).ByCaller? || !MayLook(cfg, s, l) then NoReply
    else if s.pool == [] then (if Sleeps(l) then NoReply else NotFound)
    else if CallOf(cfg, s, l).GetSession? then Got(s.pool[0].session)
    else NonEmpty
  }

  /**
    A session handed out is the oldest one in the append log that has not left the list, and from then
    on the client is the only one to have it. Where `is_connected` says yes, there is such a session and
    nobody else has it. When a call reports `not_found`, every session there is has left the list or not
    yet reached it. A call that reports `timed_out` changes nothing.
   */
  lemma RepliesAreHonest(cfg: Config, s: State, l: Label, t: State)
    requires cfg.Valid() && Reachable(cfg, s) && Step(cfg, s, l, t)
    ensures ReplyOf(cfg, s, l).Got? ==>
      var id := ReplyOf(cfg, s, l).session;
      && s.removed < |s.log| && id == s.log[s.removed].session && id < s.created
      && t.removed == s.removed + 1 && t.log == s.log
      && t.held[id] == 1 && s.held[id] == 0
      && InList(t.pool, id) == 0 && multiset(t.adders)[Carrying(id)] == 0 && InList(t.destroyed, id) == 0
    ensures ReplyOf(cfg, s, l).NonEmpty? ==>
      t == s.(clients := t.clients) && s.removed < |s.log| && OnlyListed(s, s.log[s.removed].session)
    ensures ReplyOf(cfg, s, l).NotFound? ==>
      && t == s.(clients := t.clients) && s.removed == |s.log|
      && forall id: Session :: id < s.created ==> OnlyElsewhere(s, id)
    ensures ReplyOf(cfg, s, l).TimedOut? ==> t == s
  {
    hide WatcherNext, AdderNext, ReachedIn, OnlyListed, OnlyElsewhere, InList;
    var k: nat :| ReachableHolding(cfg, k, s);
    var n: nat :| ReachedIn(cfg, k, n, s);
    ReachedIsSafe(cfg, k, n, s);
    hide InOrder, Conserved, Outstanding;
    if ReplyOf(cfg, s, l).Got? {
      HandOver(cfg, s, l, t);
    }
    if ReplyOf(cfg, s, l).NonEmpty? {
      FrontIsListed(s);
    }
    if ReplyOf(cfg, s, l).NotFound? {
      NothingListed(s);
    }
  }

  /** The session is in the list and nowhere else. */
  ghost predicate OnlyListed(s: State, id: Session) {
    && InList(s.pool, id) == 1
    && multiset(s.adders)[Carrying(id)] == 0 && s.held[id] == 0 && InList(s.destroyed, id) == 0
  }

  /** The session is with an adder, with a client or destroyed. */
  ghost predicate OnlyElsewhere(s: State, id: Session) {
    multiset(s.adders)[Carrying(id)] + s.held[id] + InList(s.destroyed, id) == 1
  }

  lemma FrontIsListed(s: State)
    requires InOrder(s) && Conserved(s) && s.pool != []
    ensures s.removed < |s.log| && OnlyListed(s, s.log[s.removed].session)
  {
    var id := s.pool[0].session;
    assert Places(s, id) == if id < s.created then 1 else 0;
  }

  lemma NothingListed(s: State)
    requires InOrder(s) && Conserved(s) && s.pool == []
    ensures s.removed == |s.log| && forall id: Session :: id < s.created ==> OnlyElsewhere(s, id)
  {
    forall id: Session | id < s.created
      ensures OnlyElsewhere(s, id)
    {
      assert Places(s, id) == 1;
    }
  }

  lemma HandOver(cfg: Config, s: State, l: Label, t: State)
    requires InOrder(s) && Conserved(s) && RoleOf(l).ByCaller? && CallerNext(cfg, s, l) == Some(t)
    requires ReplyOf(cfg, s, l).Got?
    ensures var id := ReplyOf(cfg, s, l).session;
      && s.removed < |s.log| && id == s.log[s.removed].session && id < s.created
      && t.removed == s.removed + 1 && t.log == s.log
      && t.held[id] == 1 && s.held[id] == 0
      && InList(t.pool, id) == 0 && multiset(t.adders)[Carrying(id)] == 0 && InList(t.destroyed, id) == 0
  {
    var id := ReplyOf(cfg, s, l).session;
    assert Places(s, id) == if id < s.created then 1 else 0;
    CallerMoves(cfg, s, l, t, id);
  }

  /** The list is always the unremoved rest of the append log, whose time stamps never decrease. */
  lemma PoolIsLogSuffix(cfg: Config, s: State)
    requires cfg.Valid() && Reachable(cfg, s)
    ensures s.removed <= |s.log| && s.pool == s.log[s.removed..]
    ensures Sorted(s.log)
    ensures Kept(s.pool, s.now, cfg.idle) == s.pool[|s.pool| - |Kept(s.pool, s.now, cfg.idle)|..]
  {
    hide ReachedIn, Kept;
    var k: nat :| ReachableHolding(cfg, k, s);
    var n: nat :| ReachedIn(cfg, k, n, s);
    ReachedIsSafe(cfg, k, n, s);
    SweepRemovesPrefix(s.pool, s.now, cfg.idle);
  }

  /**
    The conservative strategy never waits longer than its delay, which is at most ten seconds, and no
    refill is under way before the wait is over.
   */
  lemma BackoffIsBounded(cfg: Config, s: State)
    requires cfg.Valid() && Reachable(cfg, s)
    ensures s.strategy.Conservative? ==>
      && s.strategy.currentDelay <= 10_000
      && s.strategy.waitUntil <= s.now + s.strategy.currentDelay * 1_000_000
      && (s.watcher.Refilling? ==> s.strategy.waitUntil <= s.now)
  {
    hide ReachedIn;
    var k: nat :| ReachableHolding(cfg, k, s);
    var n: nat :| ReachedIn(cfg, k, n, s);
    ReachedIsSafe(cfg, k, n, s);
  }

  /**
    No adder thread outlives its refill: when one ends, every adder is done and nothing is on its way, and
    outside a refill there is none.
   */
  lemma AddersEndWithRefill(cfg: Config, s: State, l: Label, t: State)
    requires cfg.Valid() && Reachable(cfg, s) && Step(cfg, s, l, t)
    ensures s.watcher.Refilling? && !t.watcher.Refilling? ==>
      && AllDone(s.adders) && Outstanding(s) == 0
      && s.created == |s.pool| + |s.held| + |s.destroyed|
    ensures !s.watcher.Refilling? ==> s.adders == []
    ensures s.watcher.Swept? ==> s.watcher.vacant <= cfg.size
  {
    if s.watcher.Refilling? && !t.watcher.Refilling? {
      EndsByJoin(cfg, s, l, t);
      NothingCarried(s.adders);
    }
    hide ReachedIn;
    var k: nat :| ReachableHolding(cfg, k, s);
    var n: nat :| ReachedIn(cfg, k, n, s);
    ReachedIsSafe(cfg, k, n, s);
  }

  lemma EndsByJoin(cfg: Config, s: State, l: Label, t: State)
    requires Step(cfg, s, l, t) && s.watcher.Refilling? && !t.watcher.Refilling?
    ensures l.Join? && s.watcher == Refilling(0) && AllDone(s.adders)
  {
    hide CallerNext, ClientNext, AdderNext;
    match RoleOf(l)
    case ByCaller => CallerCounted(cfg, s, l, t);
    case ByClient => ClientCounted(cfg, s, l, t);
    case ByWatcher =>
    case ByAdder => AdderCounted(cfg, s, l, t);
  }
}
