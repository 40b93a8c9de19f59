/**
  Filling the pool. Every undisturbed run of the conservative strategy closes a third of the gap per
  refill; and runs exist that fill the pool completely while clients hold sessions, so the size bound
  is exact and the documented "size + 1" holds only for clients that hold at most one session.
 */
module PoolFill {
  import opened Common
  import opened PoolStrategy
  import opened PoolProtocol
  import opened PoolSafety

  // ------------------------------------------------------------------------------------------
  // Undisturbed runs

  /** No session reaches or leaves a client, none is destroyed, and no connection attempt fails. */
  ghost predicate QuietStep(cfg: Config, s: State, l: Label, t: State) {
    Step(cfg, s, l, t) && t.held == s.held && t.destroyed == s.destroyed && !l.ConnectFailed?
  }

  /** `t` is reached from `s` by `n` quiet steps, `rounds` of which end a refill. */
  ghost predicate QuietRun(cfg: Config, s: State, n: nat, rounds: nat, t: State) {
    if n == 0 then t == s && rounds == 0
    else exists p: State, l: Label ::
      && (l.Join? ==> 0 < rounds)
      && QuietRun(cfg, s, n - 1, if l.Join? then rounds - 1 else rounds, p)
      && QuietStep(cfg, p, l, t)
  }

  /** The strategy has no delay and is not waiting. */
  ghost predicate Eager(s: State) {
    s.strategy.Conservative? && s.strategy.currentDelay == 0 && s.strategy.waitUntil <= s.now
  }

  /** No adder has finished unless one has reported success, and a refill makes some attempt. */
  ghost predicate Successful(s: State) {
    s.watcher.Refilling? && !s.added ==>
      0 < s.watcher.toSpawn + |s.adders| && Done !in s.adders
  }

  /** The vacancy, counting what the running refill still brings, follows `VacancyAfter`. */
  ghost predicate OnCourse(cfg: Config, v: nat, rounds: nat, s: State) {
    match s.watcher
    case Idle => |s.pool| + VacancyAfter(v, rounds) == cfg.size
    case Swept(vacant) => |s.pool| + vacant == cfg.size && vacant == VacancyAfter(v, rounds)
    case Refilling(_) => |s.pool| + Outstanding(s) + VacancyAfter(v, rounds + 1) == cfg.size
  }

  ghost predicate Filling(cfg: Config, v: nat, rounds: nat, s: State) {
    InOrder(s) && WatcherInv(cfg, s) && Eager(s) && Successful(s) && OnCourse(cfg, v, rounds, s)
  }

  /** The list and the refill are the same, and time has not gone back. */
  ghost predicate SameFill(s: State, t: State) {
    && |t.pool| == |s.pool| && s.now <= t.now && t.strategy == s.strategy
    && t.watcher == s.watcher && t.adders == s.adders && t.added == s.added
  }

  lemma SameFillFills(cfg: Config, v: nat, rounds: nat, s: State, t: State)
    requires Eager(s) && Successful(s) && OnCourse(cfg, v, rounds, s) && SameFill(s, t)
    ensures Eager(t) && Successful(t) && OnCourse(cfg, v, rounds, t)
  {
    hide VacancyAfter, Carriers;
  }

  /** Only what a caller takes from the list shows in what clients hold. */
  lemma CallerEffect(cfg: Config, s: State, l: Label, t: State)
    requires RoleOf(l).ByCaller? && CallerNext(cfg, s, l) == Some(t)
    ensures |t.pool| + |t.held| == |s.pool| + |s.held|
    ensures t == s.(pool := t.pool, held := t.held, removed := t.removed, clients := t.clients)
  {
  }

  lemma QuietCaller(cfg: Config, s: State, l: Label, t: State)
    requires QuietStep(cfg, s, l, t) && RoleOf(l).ByCaller?
    ensures SameFill(s, t)
  {
    hide CallerNext;
    CallerEffect(cfg, s, l, t);
  }

  lemma QuietClient(cfg: Config, s: State, l: Label, t: State)
    requires QuietStep(cfg, s, l, t) && RoleOf(l).ByClient?
    ensures SameFill(s, t)
  {
    hide ClientNext;
    ClientEffect(s, l, t);
  }

  /** A quiet step of an adder connects, lists a session or reports it. */
  lemma QuietAdder(cfg: Config, s: State, l: Label, t: State)
    requires QuietStep(cfg, s, l, t) && RoleOf(l).ByAdder?
    ensures l.a < |s.adders| && t.adders == s.adders[l.a := t.adders[l.a]]
    ensures t.now == s.now && t.strategy == s.strategy && t.watcher == s.watcher
    ensures |t.pool| == |s.pool| + Busy(s.adders[l.a]) - Busy(t.adders[l.a])
    ensures s.added || t.adders[l.a] == Done ==> t.added
  {
    AdderEffect(s, l, t);
    hide Signal;
  }

  lemma AdderFills(cfg: Config, v: nat, rounds: nat, s: State, l: Label, t: State)
    requires Eager(s) && Successful(s) && OnCourse(cfg, v, rounds, s) && WatcherInv(cfg, s)
    requires QuietStep(cfg, s, l, t) && RoleOf(l).ByAdder?
    ensures Eager(t) && Successful(t) && OnCourse(cfg, v, rounds, t)
  {
    hide Next, VacancyAfter, Busy, Carriers;
    QuietAdder(cfg, s, l, t);
    OutstandingUpdate(s, l.a, t.adders[l.a]);
    assert Outstanding(t) == Outstanding(SetAdder(s, l.a, t.adders[l.a]));
  }

  lemma SweepFills(cfg: Config, v: nat, rounds: nat, s: State, t: State)
    requires Eager(s) && OnCourse(cfg, v, rounds, s) && QuietStep(cfg, s, Sweep, t)
    ensures Eager(t) && Successful(t) && OnCourse(cfg, v, rounds, t)
  {
    hide VacancyAfter, Kept, Evict;
    EvictCounts(s, cfg.idle);
  }

  /** What a sweep removes from the list is destroyed. */
  lemma EvictCounts(s: State, idle: Time)
    ensures |Evict(s, idle).pool| + |Evict(s, idle).destroyed| == |s.pool| + |s.destroyed|
    ensures var t := Evict(s, idle);
      t == s.(pool := t.pool, removed := t.removed, destroyed := t.destroyed)
  {
  }

  lemma RefillFills(cfg: Config, v: nat, rounds: nat, s: State, t: State)
    requires cfg.Valid() && v <= cfg.size && Eager(s) && OnCourse(cfg, v, rounds, s) && WatcherInv(cfg, s)
    requires QuietStep(cfg, s, Refill, t)
    ensures Eager(t) && Successful(t) && OnCourse(cfg, v, rounds, t)
  {
    if s.watcher.vacant != 0 {
      ParallelIsExact(s.watcher.vacant);
    }
  }

  lemma SpawnFills(cfg: Config, v: nat, rounds: nat, s: State, t: State)
    requires Eager(s) && Successful(s) && OnCourse(cfg, v, rounds, s) && QuietStep(cfg, s, Spawn, t)
    ensures Eager(t) && Successful(t) && OnCourse(cfg, v, rounds, t)
  {
    hide VacancyAfter, Carriers;
    CarriersAppend(s.adders, Connecting);
  }

  lemma JoinFills(cfg: Config, v: nat, rounds: nat, s: State, f: Factor, t: State)
    requires Eager(s) && Successful(s) && OnCourse(cfg, v, rounds, s) && QuietStep(cfg, s, Join(f), t)
    ensures Eager(t) && Successful(t) && OnCourse(cfg, v, rounds + 1, t)
  {
    hide VacancyAfter, NextDelay;
    NothingCarried(s.adders);
    assert s.adders != [] ==> s.adders[0] in s.adders;
    assert s.added;
  }

  lemma WatcherFills(cfg: Config, v: nat, rounds: nat, s: State, l: Label, t: State)
    requires cfg.Valid() && v <= cfg.size && Filling(cfg, v, rounds, s) && QuietStep(cfg, s, l, t)
    requires RoleOf(l).ByWatcher?
    ensures Eager(t) && Successful(t) && OnCourse(cfg, v, if l.Join? then rounds + 1 else rounds, t)
  {
    hide QuietStep, Eager, Successful, OnCourse;
    match l
    case Sweep => SweepFills(cfg, v, rounds, s, t);
    case Refill => RefillFills(cfg, v, rounds, s, t);
    case Spawn => SpawnFills(cfg, v, rounds, s, t);
    case Join(f) => JoinFills(cfg, v, rounds, s, f, t);
  }

  lemma FillingKept(cfg: Config, v: nat, rounds: nat, s: State, l: Label, t: State)
    requires cfg.Valid() && v <= cfg.size && Filling(cfg, v, rounds, s) && QuietStep(cfg, s, l, t)
    ensures Filling(cfg, v, if l.Join? then rounds + 1 else rounds, t)
  {
    hide CallerNext, ClientNext, WatcherNext, AdderNext, OnCourse, Successful;
    OrderKept(cfg, s, l, t);
    CountsKept(cfg, s, l, t);
    match RoleOf(l)
    case ByCaller =>
      QuietCaller(cfg, s, l, t);
      SameFillFills(cfg, v, rounds, s, t);
    case ByClient =>
      QuietClient(cfg, s, l, t);
      SameFillFills(cfg, v, rounds, s, t);
    case ByWatcher => WatcherFills(cfg, v, rounds, s, l, t);
    case ByAdder => AdderFills(cfg, v, rounds, s, l, t);
  }

  lemma {:induction false} QuietRunFills(cfg: Config, s: State, n: nat, rounds: nat, t: State)
    requires cfg.Valid() && |s.pool| <= cfg.size && QuietRun(cfg, s, n, rounds, t)
    requires s.watcher.Idle? && Eager(s) && InOrder(s) && WatcherInv(cfg, s)
    ensures Filling(cfg, cfg.size - |s.pool|, rounds, t)
  {
    hide Next, OnCourse;
    if n == 0 {
      assert OnCourse(cfg, cfg.size - |s.pool|, 0, s) by {
        StartsOnCourse(cfg, s);
      }
    } else {
      var p: State, l: Label :|
        && (l.Join? ==> 0 < rounds)
        && QuietRun(cfg, s, n - 1, if l.Join? then rounds - 1 else rounds, p)
        && QuietStep(cfg, p, l, t);
      QuietRunFills(cfg, s, n - 1, if l.Join? then rounds - 1 else rounds, p);
      FillingKept(cfg, cfg.size - |s.pool|, if l.Join? then rounds - 1 else rounds, p, l, t);
    }
  }

  lemma StartsOnCourse(cfg: Config, s: State)
    requires s.watcher.Idle? && |s.pool| <= cfg.size
    ensures OnCourse(cfg, cfg.size - |s.pool|, 0, s)
  {
  }

  /**
    However the threads interleave: an undisturbed conservative fill never overshoots the size; after
    k refills the vacancy is exactly `VacancyAfter` of the initial one, hence at most (2/3)^k of it;
    and after as many refills as places were vacant the pool holds exactly its size.
   */
  lemma ConservativeFillConverges(cfg: Config, s: State, n: nat, rounds: nat, t: State)
    requires cfg.Valid() && Reachable(cfg, s) && s.watcher.Idle? && |s.pool| <= cfg.size
    requires s.strategy.Conservative? && s.strategy.currentDelay == 0
    requires QuietRun(cfg, s, n, rounds, t)
    ensures |t.pool| + Outstanding(t) <= cfg.size
    ensures t.strategy.Conservative? && t.strategy.currentDelay == 0
    ensures t.watcher.Idle? ==>
      var v0, vk := cfg.size - |s.pool|, cfg.size - |t.pool|;
      && vk == VacancyAfter(v0, rounds)
      && Pow(3, rounds) * vk <= Pow(2, rounds) * v0
      && (v0 <= rounds ==> |t.pool| == cfg.size)
  {
    hide Next, QuietRun;
    var k: nat :| ReachableHolding(cfg, k, s);
    var m: nat :| ReachedIn(cfg, k, m, s);
    ReachedIsSafe(cfg, k, m, s);
    QuietRunFills(cfg, s, n, rounds, t);
    VacancyDecays(cfg.size - |s.pool|, rounds);
    VacancyVanishes(cfg.size - |s.pool|, rounds);
    if !t.watcher.Refilling? {
      assert t.adders == [];
    }
  }

  // ------------------------------------------------------------------------------------------
  // Runs that fill the pool

  /** A step of the clock, the watcher or an adder, in which no attempt fails and no session is dropped. */
  predicate Unaided(l: Label) {
    !RoleOf(l).ByCaller? && (RoleOf(l).ByClient? ==> l.Tick?) && !l.ConnectFailed? && !l.AdderDrop?
  }

  /** `s` is reached from `o` in `n` unaided steps. */
  ghost predicate PathIn(cfg: Config, o: State, n: nat, s: State) {
    if n == 0 then s == o
    else exists p, l :: PathIn(cfg, o, n - 1, p) && Unaided(l) && Step(cfg, p, l, s)
  }

  ghost predicate From(cfg: Config, o: State, s: State) {
    exists n: nat :: PathIn(cfg, o, n, s)
  }

  lemma Stay(cfg: Config, o: State)
    ensures From(cfg, o, o)
  {
    assert PathIn(cfg, o, 0, o);
  }

  lemma Advance(cfg: Config, o: State, s: State, l: Label) returns (t: State)
    requires From(cfg, o, s) && Unaided(l) && (l.Join? ==> l.f.Valid())
    requires Next(cfg, s, l).Some?
    ensures t == Next(cfg, s, l).value && From(cfg, o, t)
  {
    hide CallerNext, ClientNext, WatcherNext, AdderNext;
    t := Next(cfg, s, l).value;
    var n: nat :| PathIn(cfg, o, n, s);
    assert PathIn(cfg, o, n + 1 - 1, s) && Step(cfg, s, l, t);
    assert PathIn(cfg, o, n + 1, t);
  }

  lemma UnaidedHeld(cfg: Config, s: State, l: Label, t: State)
    requires Unaided(l) && Step(cfg, s, l, t)
    ensures t.held == s.held
  {
  }

  lemma {:induction false} PathReaches(cfg: Config, k: nat, o: State, n: nat, s: State)
    requires ReachableHolding(cfg, k, o) && |o.held| <= k && PathIn(cfg, o, n, s)
    ensures ReachableHolding(cfg, k, s) && s.held == o.held
  {
    hide Next, ReachableHolding, Unaided;
    if n != 0 {
      var p, l :| PathIn(cfg, o, n - 1, p) && Unaided(l) && Step(cfg, p, l, s);
      PathReaches(cfg, k, o, n - 1, p);
      UnaidedHeld(cfg, p, l, s);
      Extend(cfg, k, p, l, s);
    }
  }

  lemma FromReaches(cfg: Config, k: nat, o: State, s: State)
    requires cfg.Valid() && ReachableHolding(cfg, k, o) && From(cfg, o, s)
    ensures ReachableHolding(cfg, k, s) && s.held == o.held && Safe(cfg, k, s)
  {
    hide PathIn, Step, Safe;
    var m: nat :| ReachedIn(cfg, k, m, o);
    var n: nat :| PathIn(cfg, o, n, s);
    PathReaches(cfg, k, o, n, s);
    var m': nat :| ReachedIn(cfg, k, m', s);
    ReachedIsSafe(cfg, k, m', s);
  }

  /** Steps an adder has still to take. */
  function Work(adders: seq<Adder>): nat {
    if adders == [] then 0 else Rank(adders[0]) + Work(adders[1..])
  }

  function Rank(a: Adder): nat {
    match a
    case Connecting => 3
    case Carrying(_) => 2
    case Appended => 1
    case Done => 0
  }

  lemma {:induction false} WorkUpdate(adders: seq<Adder>, i: nat, a: Adder)
    requires i < |adders|
    ensures Work(adders[i := a]) == Work(adders) - Rank(adders[i]) + Rank(a)
  {
    if i == 0 {
      assert adders[i := a][1..] == adders[1..];
    } else {
      assert adders[i := a][1..] == adders[1..][i - 1 := a];
      WorkUpdate(adders[1..], i - 1, a);
    }
  }

  lemma {:induction false} WorkAppend(adders: seq<Adder>, a: Adder)
    ensures Work(adders + [a]) == Work(adders) + Rank(a)
  {
    if adders == [] {
      assert (adders + [a])[1..] == [];
    } else {
      assert (adders + [a])[1..] == adders[1..] + [a];
      WorkAppend(adders[1..], a);
    }
  }

  ghost predicate NoneOutdated(cfg: Config, s: State) {
    forall i :: 0 <= i < |s.pool| ==> !Outdated(s.pool[i], s.now, cfg.idle)
  }

  /** What a stretch of undisturbed work keeps: clock, strategy, clients' sessions and idle clients. */
  ghost predicate SameSetting(cfg: Config, s: State, t: State) {
    && t.now == s.now && t.strategy == s.strategy && t.held == s.held && |t.clients| == |s.clients|
    && (forall c :: 0 <= c < |s.clients| && s.clients[c].Ready? ==> t.clients[c].Ready?)
    && (0 < cfg.idle && NoneOutdated(cfg, s) ==> NoneOutdated(cfg, t))
  }

  /** A refill one step further: no session lost, and success recorded once nothing is owed. */
  ghost predicate Further(cfg: Config, s: State, t: State) {
    && SameSetting(cfg, s, t)
    && t.watcher.Refilling?
    && |t.pool| + Outstanding(t) == |s.pool| + Outstanding(s)
    && (s.added || Appended in s.adders || 0 < Outstanding(s) ==>
          t.added || Appended in t.adders || 0 < Outstanding(t))
  }

  lemma Choose(clients: seq<Client>) returns (target: Option<nat>)
    ensures Signal(clients, target).Some?
  {
    if NoSleepers(clients) {
      target := None;
    } else {
      var i :| 0 <= i < |clients| && clients[i].Sleeping?;
      target := Some(i);
    }
  }

  lemma SignalKeepsReady(clients: seq<Client>, target: Option<nat>)
    requires Signal(clients, target).Some?
    ensures var woken := Signal(clients, target).value;
      && |woken| == |clients|
      && forall c :: 0 <= c < |clients| && clients[c].Ready? ==> woken[c].Ready?
  {
  }

  lemma ConnectsFurther(cfg: Config, s: State, a: nat)
    requires s.watcher.Refilling? && a < |s.adders| && s.adders[a].Connecting?
    ensures AdderNext(s, Connected(a)).Some?
    ensures var t := AdderNext(s, Connected(a)).value;
      Further(cfg, s, t) && t.watcher == s.watcher && Work(t.adders) < Work(s.adders)
  {
    WorkUpdate(s.adders, a, Carrying(s.created));
    CarriersUpdate(s.adders, a, Carrying(s.created));
    assert s.adders[a := Carrying(s.created)][a] in s.adders[a := Carrying(s.created)];
    CarrierCounts(s.adders[a := Carrying(s.created)], a);
  }

  lemma {:induction false} CarrierCounts(adders: seq<Adder>, a: nat)
    requires a < |adders| && adders[a].Carrying?
    ensures 0 < Carriers(adders)
  {
    if a != 0 {
      CarrierCounts(adders[1..], a - 1);
    }
  }

  lemma AppendsFurther(cfg: Config, s: State, a: nat)
    requires s.watcher.Refilling? && a < |s.adders| && s.adders[a].Carrying?
    ensures AdderNext(s, AdderAppend(a)).Some?
    ensures var t := AdderNext(s, AdderAppend(a)).value;
      Further(cfg, s, t) && t.watcher == s.watcher && Work(t.adders) < Work(s.adders)
  {
    WorkUpdate(s.adders, a, Appended);
    CarriersUpdate(s.adders, a, Appended);
    assert s.adders[a := Appended][a] in s.adders[a := Appended];
  }

  lemma NotifiesFurther(cfg: Config, s: State, a: nat, target: Option<nat>)
    requires s.watcher.Refilling? && a < |s.adders| && s.adders[a].Appended? && Signal(s.clients, target).Some?
    ensures AdderNext(s, AdderNotify(a, target)).Some?
    ensures var t := AdderNext(s, AdderNotify(a, target)).value;
      Further(cfg, s, t) && t.watcher == s.watcher && Work(t.adders) < Work(s.adders)
  {
    WorkUpdate(s.adders, a, Done);
    CarriersUpdate(s.adders, a, Done);
    SignalKeepsReady(s.clients, target);
  }

  lemma SpawnsFurther(cfg: Config, s: State)
    requires s.watcher.Refilling? && 0 < s.watcher.toSpawn
    ensures WatcherNext(cfg, s, Spawn).Some?
    ensures var t := WatcherNext(cfg, s, Spawn).value;
      Further(cfg, s, t) && t.watcher.toSpawn == s.watcher.toSpawn - 1 && Work(t.adders) == Work(s.adders) + 3
  {
    WorkAppend(s.adders, Connecting);
    CarriersAppend(s.adders, Connecting);
    assert (s.adders + [Connecting])[|s.adders|] in s.adders + [Connecting];
  }

  lemma FurtherIsTransitive(cfg: Config, s: State, t: State, u: State)
    requires Further(cfg, s, t) && Further(cfg, t, u)
    ensures Further(cfg, s, u)
  {
  }

  /** One more step of a refill that is not over: an unfinished adder moves, or another one starts. */
  lemma WorkOn(cfg: Config, o: State, s: State) returns (t: State)
    requires From(cfg, o, s)
    requires s.watcher.Refilling? && !(s.watcher.toSpawn == 0 && AllDone(s.adders))
    ensures From(cfg, o, t) && Further(cfg, s, t)
    ensures 4 * t.watcher.toSpawn + Work(t.adders) < 4 * s.watcher.toSpawn + Work(s.adders)
  {
    hide From, CallerNext, ClientNext, WatcherNext, AdderNext, Further, Work, Signal;
    if AllDone(s.adders) {
      SpawnsFurther(cfg, s);
      HeldStays(cfg, s, WatcherNext(cfg, s, Spawn).value);
      t := Advance(cfg, o, s, Spawn);
    } else {
      var a :| 0 <= a < |s.adders| && s.adders[a] != Done;
      match s.adders[a] {
        case Connecting =>
          ConnectsFurther(cfg, s, a);
          HeldStays(cfg, s, AdderNext(s, Connected(a)).value);
          t := Advance(cfg, o, s, Connected(a));
        case Carrying(_) =>
          AppendsFurther(cfg, s, a);
          HeldStays(cfg, s, AdderNext(s, AdderAppend(a)).value);
          t := Advance(cfg, o, s, AdderAppend(a));
        case Appended =>
          var target := Choose(s.clients);
          NotifiesFurther(cfg, s, a, target);
          HeldStays(cfg, s, AdderNext(s, AdderNotify(a, target)).value);
          t := Advance(cfg, o, s, AdderNotify(a, target));
      }
    }
  }

  lemma HeldStays(cfg: Config, s: State, t: State)
    requires Further(cfg, s, t)
    ensures t.held == s.held && t.watcher.Refilling?
  {
  }

  /** A running refill can always be driven to its end, every attempt adding its session. */
  lemma {:induction false} WorkToEnd(cfg: Config, o: State, s: State) returns (t: State)
    requires From(cfg, o, s) && s.watcher.Refilling?
    ensures From(cfg, o, t) && Further(cfg, s, t)
    ensures t.watcher == Refilling(0) && AllDone(t.adders)
    decreases 4 * s.watcher.toSpawn + Work(s.adders)
  {
    hide From, Further, Work;
    if s.watcher.toSpawn == 0 && AllDone(s.adders) {
      t := s;
      FurtherIsReflexive(cfg, s);
    } else {
      var u := WorkOn(cfg, o, s);
      HeldStays(cfg, s, u);
      t := WorkToEnd(cfg, o, u);
      FurtherIsTransitive(cfg, s, u, t);
    }
  }

  lemma FurtherIsReflexive(cfg: Config, s: State)
    requires s.watcher.Refilling?
    ensures Further(cfg, s, s)
  {
  }

  /** The watcher is between turns and may refill. */
  ghost predicate Rested(s: State) {
    s.watcher.Idle? && s.adders == [] && !s.strategy.Waits(s.now)
  }

  /** The outcome of a completed turn. */
  ghost predicate TurnDone(cfg: Config, s: State, t: State) {
    && t.now == s.now && t.held == s.held && |t.clients| == |s.clients|
    && (forall c :: 0 <= c < |s.clients| && s.clients[c].Ready? ==> t.clients[c].Ready?)
    && (0 < cfg.idle && NoneOutdated(cfg, s) ==> NoneOutdated(cfg, t))
  }

  /** A refill will make all the attempts the vacancy allows. */
  ghost predicate Undelayed(st: Strategy) {
    st.Greedy? || st.currentDelay == 0
  }

  /** Finishing a refill leaves the watcher rested: after a failure, choose the factor zero. */
  lemma Finishes(cfg: Config, o: State, s: State) returns (t: State)
    requires From(cfg, o, s) && s.watcher.Refilling?
    requires s.strategy.Valid() && !s.strategy.Waits(s.now)
    ensures From(cfg, o, t) && Rested(t) && TurnDone(cfg, s, t) && t.strategy.Valid()
    ensures |t.pool| == |s.pool| + Outstanding(s)
    ensures 0 < Outstanding(s) ==> Undelayed(t.strategy)
    ensures t.strategy.Greedy? == s.strategy.Greedy?
  {
    hide From, Finish, CallerNext, ClientNext, AdderNext, Carriers, Work;
    var u := WorkToEnd(cfg, o, s);
    NothingCarried(u.adders);
    ZeroFactor(u.strategy, u.added, u.now);
    t := Advance(cfg, o, u, Join(Factor(0, 1)));
  }

  lemma ZeroFactor(st: Strategy, added: bool, now: Time)
    requires st.Valid() && !st.Waits(now)
    ensures var r := Finish(st, added, now, Factor(0, 1));
      && r.Valid() && !r.Waits(now) && r.Greedy? == st.Greedy?
      && (added ==> Undelayed(r))
  {
  }

  /** A turn of the rested watcher over a list without outdated entries fills at least one place. */
  lemma TakesTurn(cfg: Config, o: State, s: State) returns (t: State)
    requires cfg.Valid() && 0 < cfg.idle && From(cfg, o, s)
    requires Rested(s) && s.strategy.Valid() && NoneOutdated(cfg, s) && |s.pool| < cfg.size
    ensures From(cfg, o, t) && Rested(t) && TurnDone(cfg, s, t) && t.strategy.Valid()
    ensures |s.pool| < |t.pool| <= cfg.size
  {
    hide From, CallerNext, ClientNext, AdderNext, WatcherNext;
    SweepsNothing(cfg, s);
    t := Advance(cfg, o, s, Sweep);
    RefillStarts(cfg, t);
    t := Advance(cfg, o, t, Refill);
    t := Finishes(cfg, o, t);
  }

  lemma SweepsNothing(cfg: Config, s: State)
    requires NoneOutdated(cfg, s) && s.watcher.Idle? && |s.pool| < cfg.size
    ensures WatcherNext(cfg, s, Sweep) == Some(s.(watcher := Swept(cfg.size - |s.pool|)))
  {
    AllKept(s.pool, s.now, cfg.idle);
    assert s.destroyed + s.pool[..0] == s.destroyed;
  }

  lemma RefillStarts(cfg: Config, s: State)
    requires cfg.Valid() && !s.strategy.Waits(s.now) && s.watcher.Swept? && 0 < s.watcher.vacant <= cfg.size
    ensures var attempts := Attempts(s.strategy, s.watcher.vacant, s.now);
      && WatcherNext(cfg, s, Refill) == Some(s.(watcher := Refilling(attempts), added := false))
      && 0 < attempts <= s.watcher.vacant
  {
  }

  lemma {:induction false} FillUp(cfg: Config, o: State, s: State) returns (t: State)
    requires cfg.Valid() && 0 < cfg.idle && From(cfg, o, s)
    requires Rested(s) && s.strategy.Valid() && NoneOutdated(cfg, s)
    ensures From(cfg, o, t) && Rested(t) && TurnDone(cfg, s, t) && t.strategy.Valid()
    ensures |t.pool| == if |s.pool| < cfg.size then cfg.size else |s.pool|
    decreases cfg.size - |s.pool|
  {
    hide From;
    if cfg.size <= |s.pool| {
      t := s;
    } else {
      t := TakesTurn(cfg, o, s);
      t := FillUp(cfg, o, t);
    }
  }

  /** Whatever the watcher is doing, it can come to rest. */
  lemma ComesToRest(cfg: Config, k: nat, s: State) returns (t: State)
    requires cfg.Valid() && ReachableHolding(cfg, k, s)
    ensures From(cfg, s, t) && Rested(t)
  {
    hide ReachedIn, From, Outstanding;
    var n: nat :| ReachedIn(cfg, k, n, s);
    ReachedIsSafe(cfg, k, n, s);
    Stay(cfg, s);
    t := s;
    if t.watcher.Swept? {
      t := Advance(cfg, s, t, Refill);
    }
    if t.watcher.Refilling? {
      assert !t.strategy.Waits(t.now);
      t := Finishes(cfg, s, t);
    }
    if t.strategy.Waits(t.now) {
      t := Advance(cfg, s, t, Tick(t.strategy.waitUntil - t.now));
    }
  }

  /** One turn that first clears out the outdated sessions; nothing stays with a timeout of zero. */
  lemma ClearsOut(cfg: Config, o: State, s: State) returns (t: State)
    requires cfg.Valid() && From(cfg, o, s)
    requires Rested(s) && s.strategy.Valid() && InOrder(s)
    ensures From(cfg, o, t) && Rested(t) && t.strategy.Valid() && TurnDone(cfg, s, t)
    ensures 0 < cfg.idle ==> NoneOutdated(cfg, t)
    ensures cfg.idle <= 0 && 0 < cfg.size ==>
      |t.pool| == Attempts(s.strategy, cfg.size, s.now) && Undelayed(t.strategy)
    ensures t.strategy.Greedy? == s.strategy.Greedy?
  {
    hide From, CallerNext, ClientNext, AdderNext, WatcherNext, Outstanding, Outdated;
    SweepClears(cfg, s);
    t := Advance(cfg, o, s, Sweep);
    if t.watcher.vacant == 0 {
      RefillSkipped(cfg, t);
      t := Advance(cfg, o, t, Refill);
    } else {
      RefillStarts(cfg, t);
      t := Advance(cfg, o, t, Refill);
      OnlyToSpawn(t);
      t := Finishes(cfg, o, t);
    }
  }

  lemma SweepClears(cfg: Config, s: State)
    requires s.watcher.Idle? && InOrder(s)
    ensures WatcherNext(cfg, s, Sweep).Some?
    ensures var t := WatcherNext(cfg, s, Sweep).value;
      && t.now == s.now && t.strategy == s.strategy && t.held == s.held && t.clients == s.clients
      && t.adders == s.adders && NoneOutdated(cfg, t)
      && t.watcher.Swept? && t.watcher.vacant <= cfg.size
      && (cfg.idle <= 0 ==> t.pool == [] && t.watcher.vacant == cfg.size)
  {
    SweepRemovesPrefix(s.pool, s.now, cfg.idle);
    if cfg.idle <= 0 {
      EmptiesList(cfg, s);
    }
  }

  lemma RefillSkipped(cfg: Config, s: State)
    requires s.watcher == Swept(0)
    ensures WatcherNext(cfg, s, Refill) == Some(s.(watcher := Idle))
  {
  }

  lemma OnlyToSpawn(s: State)
    requires s.watcher.Refilling? && s.adders == []
    ensures Outstanding(s) == s.watcher.toSpawn
  {
  }

  /** Every listed session has been idle for no time at least. */
  lemma EmptiesList(cfg: Config, s: State)
    requires cfg.idle <= 0 && InOrder(s)
    ensures Kept(s.pool, s.now, cfg.idle) == []
  {
    SweepRemovesPrefix(s.pool, s.now, cfg.idle);
    var kept := Kept(s.pool, s.now, cfg.idle);
    if kept != [] {
      assert Outdated(s.pool[|s.pool| - 1], s.now, cfg.idle);
    }
  }

  /**
    How many sessions refills alone can bring together in the list. With an idle timeout of zero every
    sweep empties the list, so only one refill counts.
   */
  function Peak(cfg: Config): nat {
    if 0 < cfg.idle || cfg.strategy.Greedy? then cfg.size else Third(cfg.size)
  }

  /** From rest, a few turns fill the list as far as it can be filled. */
  lemma FillsToPeak(cfg: Config, k: nat, o: State, s: State) returns (t: State)
    requires cfg.Valid() && ReachableHolding(cfg, k, o) && From(cfg, o, s) && Rested(s)
    ensures From(cfg, o, t) && Rested(t) && Peak(cfg) <= |t.pool|
    ensures |t.clients| == |s.clients|
    ensures forall c :: 0 <= c < |s.clients| && s.clients[c].Ready? ==> t.clients[c].Ready?
  {
    hide From, ReachedIn, NoneOutdated;
    FromReaches(cfg, k, o, s);
    t := ClearsOut(cfg, o, s);
    if 0 < cfg.idle {
      t := FillUp(cfg, o, t);
    } else if 0 < cfg.size {
      FromReaches(cfg, k, o, t);
      FullAttempts(cfg, t.strategy, t.now);
      t := ClearsOut(cfg, o, t);
    }
  }

  lemma FullAttempts(cfg: Config, st: Strategy, now: Time)
    requires cfg.Valid() && cfg.idle <= 0 && 0 < cfg.size && Undelayed(st) && !st.Waits(now)
    requires st.Greedy? <==> cfg.strategy.Greedy?
    ensures Attempts(st, cfg.size, now) == Peak(cfg)
  {
    ParallelIsExact(cfg.size);
  }

  /**
    The pool can always recover: from every reachable state the watcher, its adders and the clock alone
    can lead to a full pool, no client moving and no session being dropped on the way.
   */
  lemma CanAlwaysRefill(cfg: Config, k: nat, s: State)
    requires cfg.Valid() && ReachableHolding(cfg, k, s)
    ensures exists t :: From(cfg, s, t) && Peak(cfg) <= |t.pool| && t.held == s.held
  {
    hide ReachedIn, From;
    var t := ComesToRest(cfg, k, s);
    t := FillsToPeak(cfg, k, s, t);
    FromReaches(cfg, k, s, t);
  }

  ghost function Start(cfg: Config): (s: State)
    ensures Init(cfg, s)
  {
    State(0, [], seq(cfg.clients, _ => Client.Ready), Idle, [], false, cfg.strategy, multiset{}, [], 0, [], 0)
  }

  lemma StartReachable(cfg: Config, k: nat)
    ensures ReachableHolding(cfg, k, Start(cfg))
  {
    assert ReachedIn(cfg, k, 0, Start(cfg));
  }

  /** Clients can hold `j` sessions while the list is as full as it can be. */
  lemma {:induction false} FullWhileHolding(cfg: Config, k: nat, j: nat) returns (s: State)
    requires cfg.Valid() && 0 < cfg.size && 0 < cfg.clients && j <= k
    ensures ReachableHolding(cfg, k, s) && Rested(s)
    ensures |s.held| == j && Peak(cfg) <= |s.pool| && IsReady(s, 0)
  {
    hide From, ReachableHolding, ClientNext, WatcherNext, AdderNext;
    var o := Start(cfg);
    if j == 0 {
      StartReachable(cfg, k);
    } else {
      var p := FullWhileHolding(cfg, k, j - 1);
      o := CallerNext(cfg, p, Enter(0, GetSession)).value;
      Extend(cfg, k, p, Enter(0, GetSession), o);
    }
    Stay(cfg, o);
    s := FillsToPeak(cfg, k, o, o);
    FromReaches(cfg, k, o, s);
  }

  // ------------------------------------------------------------------------------------------
  // The documented bound

  lemma {:induction false} NoClientsHoldNothing(cfg: Config, k: nat, n: nat, s: State)
    requires cfg.Valid() && cfg.clients == 0 && ReachedIn(cfg, k, n, s)
    ensures s.held == multiset{} && ReachedIn(cfg, 0, n, s)
  {
    hide Next;
    if n != 0 {
      var p, l :| ReachedIn(cfg, k, n - 1, p) && Step(cfg, p, l, s);
      NoClientsHoldNothing(cfg, k, n - 1, p);
      ReachedIsSafe(cfg, k, n - 1, p);
      HeldKept(cfg, p, l, s);
      assert ReachedIn(cfg, 0, n - 1, p) && Step(cfg, p, l, s);
    }
  }

  lemma HeldKept(cfg: Config, s: State, l: Label, t: State)
    requires Step(cfg, s, l, t) && |s.clients| == 0 && s.held == multiset{}
    ensures t.held == multiset{}
  {
    hide CallerNext, AdderNext, Signal, Kept;
    match RoleOf(l)
    case ByCaller => CallerHasClient(cfg, s, l, t);
    case ByClient =>
    case ByWatcher =>
    case ByAdder => AdderEffect(s, l, t);
  }

  lemma CallerHasClient(cfg: Config, s: State, l: Label, t: State)
    requires RoleOf(l).ByCaller? && CallerNext(cfg, s, l) == Some(t)
    ensures 0 < |s.clients|
  {
  }

  lemma {:induction false} ZeroSizeStaysDry(cfg: Config, k: nat, n: nat, s: State)
    requires cfg.Valid() && cfg.size == 0 && ReachedIn(cfg, k, n, s)
    ensures s.created == 0 && !s.watcher.Refilling?
  {
    hide Next;
    if n != 0 {
      var p, l :| ReachedIn(cfg, k, n - 1, p) && Step(cfg, p, l, s);
      ZeroSizeStaysDry(cfg, k, n - 1, p);
      ReachedIsSafe(cfg, k, n - 1, p);
      DryKept(cfg, p, l, s);
    }
  }

  lemma DryKept(cfg: Config, s: State, l: Label, t: State)
    requires Step(cfg, s, l, t) && cfg.size == 0 && WatcherInv(cfg, s)
    requires s.created == 0 && !s.watcher.Refilling?
    ensures t.created == 0 && !t.watcher.Refilling?
  {
    hide CallerNext, ClientNext, AdderNext, Kept;
    match RoleOf(l)
    case ByCaller => CallerEffect(cfg, s, l, t);
    case ByClient => ClientEffect(s, l, t);
    case ByWatcher =>
    case ByAdder => AdderEffect(s, l, t);
  }

  /** With a timeout of zero the list is empty after each sweep, and one refill adds a third of the size. */
  ghost predicate Lean(cfg: Config, k: nat, s: State) {
    if s.watcher.Swept? then |s.pool| + |s.held| <= k else Budget(s) <= Third(cfg.size) + k
  }

  lemma WatcherKeepsLean(cfg: Config, k: nat, s: State, l: Label, t: State)
    requires cfg.Valid() && cfg.idle <= 0 && cfg.strategy.Conservative? && |s.held| <= k
    requires WatcherInv(cfg, s) && InOrder(s) && Lean(cfg, k, s)
    requires RoleOf(l).ByWatcher? && (l.Join? ==> l.f.Valid()) && WatcherNext(cfg, s, l) == Some(t)
    ensures Lean(cfg, k, t)
  {
    match l
    case Sweep => EmptiesList(cfg, s);
    case Refill =>
      if s.watcher.vacant != 0 {
        ParallelIsExact(s.watcher.vacant);
      }
    case Spawn => CarriersAppend(s.adders, Connecting);
    case Join(_) => NothingCarried(s.adders);
  }

  lemma OthersKeepLean(cfg: Config, k: nat, s: State, t: State)
    requires WatcherInv(cfg, s) && Lean(cfg, k, s) && SameWork(s, t)
    ensures Lean(cfg, k, t)
  {
  }

  lemma LeanKept(cfg: Config, k: nat, s: State, l: Label, t: State)
    requires cfg.Valid() && cfg.idle <= 0 && cfg.strategy.Conservative? && |s.held| <= k
    requires WatcherInv(cfg, s) && InOrder(s) && Lean(cfg, k, s) && Step(cfg, s, l, t)
    ensures Lean(cfg, k, t)
  {
    hide CallerNext, ClientNext, WatcherNext, AdderNext, Lean, SameWork;
    match RoleOf(l) {
      case ByCaller => CallerCounted(cfg, s, l, t);
      case ByClient => ClientCounted(cfg, s, l, t);
      case ByWatcher => WatcherKeepsLean(cfg, k, s, l, t);
      case ByAdder => AdderCounted(cfg, s, l, t);
    }
    if !RoleOf(l).ByWatcher? {
      OthersKeepLean(cfg, k, s, t);
    }
  }

  lemma {:induction false} ReachedLean(cfg: Config, k: nat, n: nat, s: State)
    requires cfg.Valid() && cfg.idle <= 0 && cfg.strategy.Conservative? && ReachedIn(cfg, k, n, s)
    ensures Lean(cfg, k, s)
  {
    hide Next;
    if n != 0 {
      var p, l :| ReachedIn(cfg, k, n - 1, p) && Step(cfg, p, l, s);
      ReachedLean(cfg, k, n - 1, p);
      ReachedIsSafe(cfg, k, n - 1, p);
      LeanKept(cfg, k, p, l, s);
    }
  }

  /** The bound on the connections that exist, for every idle timeout and strategy. */
  lemma PeakBound(cfg: Config, k: nat, s: State)
    requires cfg.Valid() && ReachableHolding(cfg, k, s)
    ensures Established(s) <= Peak(cfg) + k
  {
    hide Step;
    SizeBound(cfg, k, s);
    if cfg.idle <= 0 && cfg.strategy.Conservative? {
      var n: nat :| ReachedIn(cfg, k, n, s);
      ReachedLean(cfg, k, n, s);
      ReachedIsSafe(cfg, k, n, s);
    }
  }

  /**
    The documentation promises at most size + 1 connections. Clients that never hold more than k
    sessions at once see that promise kept on every run if and only if the list's peak plus k stays
    within it (or nothing is pooled or pulled at all); and peak + k is reached. With a positive idle
    timeout, or the greedy strategy, the peak is the size and the condition is k <= 1.
   */
  lemma DocumentedBoundIff(cfg: Config, k: nat)
    requires cfg.Valid()
    ensures (forall s :: ReachableHolding(cfg, k, s) ==> Established(s) <= cfg.size + 1)
       <==> (Peak(cfg) + k <= cfg.size + 1 || cfg.size == 0 || cfg.clients == 0)
    ensures 0 < cfg.size && 0 < cfg.clients ==>
      exists s :: ReachableHolding(cfg, k, s) && Established(s) == Peak(cfg) + k
  {
    hide Step, ReachedIn;
    if Peak(cfg) + k <= cfg.size + 1 || cfg.size == 0 || cfg.clients == 0 {
      forall s | ReachableHolding(cfg, k, s)
        ensures Established(s) <= cfg.size + 1
      {
        BoundBySize(cfg, k, s);
      }
    }
    if 0 < cfg.size && 0 < cfg.clients {
      var s := FullWhileHolding(cfg, k, k);
      PeakBound(cfg, k, s);
    }
  }

  lemma BoundBySize(cfg: Config, k: nat, s: State)
    requires cfg.Valid() && ReachableHolding(cfg, k, s)
    requires Peak(cfg) + k <= cfg.size + 1 || cfg.size == 0 || cfg.clients == 0
    ensures Established(s) <= cfg.size + 1
  {
    hide Step;
    PeakBound(cfg, k, s);
    var n: nat :| ReachedIn(cfg, k, n, s);
    if cfg.clients == 0 {
      NoClientsHoldNothing(cfg, k, n, s);
      SizeBound(cfg, 0, s);
    } else if cfg.size == 0 {
      ZeroSizeStaysDry(cfg, k, n, s);
      ReachedIsSafe(cfg, k, n, s);
    }
  }
}
