/**
  The condition variable of the pool. As long as every waiting thread came to take a session, a thread
  never sleeps while more sessions are listed than there are notifications on their way; one
  `is_connected` waiter is enough to break this, because it consumes a notification without taking.
 */
module PoolWakeup {
  import opened Common
  import opened PoolStrategy
  import opened PoolProtocol
  import opened PoolSafety
  import PoolFill

  function Credit(pc: Client): nat {
    if pc.Woken? || pc.MustNotify? then 1 else 0
  }

  /** Client threads that owe a notification, or were woken and have not looked at the list yet. */
  ghost function Credits(clients: seq<Client>): nat {
    if clients == [] then 0 else Credit(clients[0]) + Credits(clients[1..])
  }

  /** Adder threads that owe a notification. */
  ghost function Owed(adders: seq<Adder>): nat {
    multiset(adders)[Appended]
  }

  ghost predicate Covered(clients: seq<Client>, listed: nat, owed: nat) {
    NoSleepers(clients) || listed <= Credits(clients) + owed
  }

  /**
    Whenever some thread sleeps, the list holds no more sessions than there are pending notifications
    and woken threads that have not run yet.
   */
  ghost predicate NoLostWakeup(s: State) {
    Covered(s.clients, |s.pool|, Owed(s.adders))
  }

  // ------------------------------------------------------------------------------------------
  // Nothing is lost among takers

  lemma {:induction false} CreditsUpdate(clients: seq<Client>, c: nat, pc: Client)
    requires c < |clients|
    ensures Credits(clients[c := pc]) == Credits(clients) - Credit(clients[c]) + Credit(pc)
  {
    if c == 0 {
      assert clients[c := pc][1..] == clients[1..];
    } else {
      assert clients[c := pc][1..] == clients[1..][c - 1 := pc];
      CreditsUpdate(clients[1..], c - 1, pc);
    }
  }

  lemma {:induction false} NoCredits(clients: seq<Client>)
    requires forall i :: 0 <= i < |clients| ==> Credit(clients[i]) == 0
    ensures Credits(clients) == 0
  {
    if clients != [] {
      NoCredits(clients[1..]);
    }
  }

  /** A thread that changes place keeps the cover if the list does not outgrow the notifications. */
  lemma MoveKeeps(clients: seq<Client>, listed: nat, owed: nat, c: nat, pc: Client, listed': nat, owed': nat)
    requires Covered(clients, listed, owed) && c < |clients|
    requires listed' == 0
          || (!pc.Sleeping? && listed' + Credit(clients[c]) + owed <= listed + Credit(pc) + owed')
    ensures Covered(clients[c := pc], listed', owed')
  {
    CreditsUpdate(clients, c, pc);
    if listed' != 0 && NoSleepers(clients) {
      assert NoSleepers(clients[c := pc]);
    }
  }

  /** No thread is inside `is_connected`. */
  ghost predicate OnlyTakers(clients: seq<Client>) {
    forall i :: 0 <= i < |clients| ==>
      clients[i] !in {Sleeping(IsConnected), Woken(IsConnected), Late(IsConnected)}
  }

  ghost predicate Undisturbed(cfg: Config, s: State) {
    (!cfg.checks && OnlyTakers(s.clients)) || |s.clients| <= 1
  }

  /** A call over an empty list leaves it empty; over a non-empty one it returns. */
  lemma CallerEffect(cfg: Config, s: State, l: Label, t: State)
    requires RoleOf(l).ByCaller? && CallerNext(cfg, s, l) == Some(t)
    ensures l.c < |s.clients| && t.clients == s.clients[l.c := t.clients[l.c]] && t.adders == s.adders
    ensures s.pool == [] ==> t.pool == [] && (t.clients[l.c].Ready? || t.clients[l.c] == Sleeping(CallOf(cfg, s, l)))
    ensures s.pool != [] ==> t.clients[l.c].Ready?
    ensures s.pool != [] && CallOf(cfg, s, l).GetSession? ==> |t.pool| == |s.pool| - 1
    ensures !s.clients[l.c].Sleeping? && Credit(s.clients[l.c]) <= 1
  {
  }

  lemma TakersCallTakers(cfg: Config, s: State, l: Label)
    requires RoleOf(l).ByCaller? && MayLook(cfg, s, l) && !cfg.checks && OnlyTakers(s.clients)
    ensures CallOf(cfg, s, l).GetSession?
  {
  }

  lemma TakersStay(clients: seq<Client>, c: nat, pc: Client)
    requires OnlyTakers(clients) && c < |clients| && (pc.Ready? || pc == Sleeping(GetSession))
    ensures OnlyTakers(clients[c := pc])
  {
  }

  lemma TakerCredit(before: Client, after: Client)
    requires after.Ready? || after.Sleeping?
    ensures Credit(before) <= 1 && Credit(after) == 0
  {
  }

  /** A single client that leaves a call is not asleep. */
  lemma SoloKeeps(s: State, l: Label, t: State)
    requires RoleOf(l).ByCaller? && l.c < |s.clients| == |t.clients| <= 1
    requires s.pool == [] ==> t.pool == []
    requires s.pool != [] ==> t.clients[l.c].Ready?
    ensures NoLostWakeup(t)
  {
  }

  lemma CallerKeeps(cfg: Config, s: State, l: Label, t: State)
    requires Undisturbed(cfg, s) && NoLostWakeup(s)
    requires RoleOf(l).ByCaller? && CallerNext(cfg, s, l) == Some(t)
    ensures Undisturbed(cfg, t) && NoLostWakeup(t)
  {
    CallerEffect(cfg, s, l, t);
    assert MayLook(cfg, s, l);
    hide CallerNext, Credit, MayLook, CallOf, Covered, OnlyTakers, Owed;
    if |s.clients| <= 1 {
      SoloKeeps(s, l, t);
    } else {
      TakersCallTakers(cfg, s, l);
      TakersStay(s.clients, l.c, t.clients[l.c]);
      TakerCredit(s.clients[l.c], t.clients[l.c]);
      MoveKeeps(s.clients, |s.pool|, Owed(s.adders), l.c, t.clients[l.c], |t.pool|, Owed(t.adders));
    }
  }

  lemma ClientKeeps(cfg: Config, s: State, l: Label, t: State)
    requires Undisturbed(cfg, s) && NoLostWakeup(s)
    requires RoleOf(l).ByClient? && ClientNext(s, l) == Some(t)
    ensures Undisturbed(cfg, t) && NoLostWakeup(t)
  {
    hide Signal, Covered, OnlyTakers, Owed;
    var owed := Owed(s.adders);
    if l.Notify? {
      NotifyKeeps(s.clients, l.c, l.target, |s.pool|, owed);
      NotifyDisturbsNot(s.clients, l.c, l.target);
    } else if l.Expire? || l.Spurious? || l.Return? {
      MoveKeeps(s.clients, |s.pool|, owed, l.c, t.clients[l.c], |t.pool|, owed);
      if OnlyTakers(s.clients) {
        WaiterStays(s.clients, l.c, t.clients[l.c]);
      }
    }
  }

  /** A thread that goes on waiting, or returns a session, is no new `is_connected` caller. */
  lemma WaiterStays(clients: seq<Client>, c: nat, pc: Client)
    requires OnlyTakers(clients) && c < |clients|
    requires pc.MustNotify? || (clients[c].Sleeping? && (pc.Woken? || pc.Late?) && pc.call == clients[c].call)
    ensures OnlyTakers(clients[c := pc])
  {
  }

  lemma NobodyToWake(clients: seq<Client>, listed: nat, owed: nat)
    requires NoSleepers(clients)
    ensures Covered(clients, listed, owed)
  {
  }

  /** The notification of thread `c` reaches a sleeping thread, or there is none. */
  lemma NotifyKeeps(clients: seq<Client>, c: nat, target: Option<nat>, listed: nat, owed: nat)
    requires c < |clients| && clients[c].MustNotify? && Covered(clients, listed, owed)
    requires Signal(clients[c := Client.Ready], target).Some?
    ensures Covered(Signal(clients[c := Client.Ready], target).value, listed, owed)
  {
    hide Covered, Signal;
    MoveKeeps(clients, listed, owed, c, Client.Ready, listed, owed + 1);
    SignalKeeps(clients[c := Client.Ready], target, listed, owed);
  }

  /** A notification that was owed wakes a sleeping thread, or there is none. */
  lemma SignalKeeps(clients: seq<Client>, target: Option<nat>, listed: nat, owed: nat)
    requires Signal(clients, target).Some? && Covered(clients, listed, owed + 1)
    ensures var woken := Signal(clients, target).value;
      Covered(woken, listed, owed) && |woken| == |clients| && (OnlyTakers(clients) ==> OnlyTakers(woken))
  {
    hide Covered;
    match target
    case None => NobodyToWake(clients, listed, owed);
    case Some(i) => MoveKeeps(clients, listed, owed + 1, i, Woken(clients[i].call), listed, owed);
  }

  lemma NotifyDisturbsNot(clients: seq<Client>, c: nat, target: Option<nat>)
    requires c < |clients| && Signal(clients[c := Client.Ready], target).Some?
    ensures var woken := Signal(clients[c := Client.Ready], target).value;
      |woken| == |clients| && (OnlyTakers(clients) ==> OnlyTakers(woken))
  {
  }

  lemma AdderKeeps(cfg: Config, s: State, l: Label, t: State)
    requires Undisturbed(cfg, s) && NoLostWakeup(s)
    requires RoleOf(l).ByAdder? && AdderNext(s, l) == Some(t)
    ensures Undisturbed(cfg, t) && NoLostWakeup(t)
  {
    hide Signal, Covered, OnlyTakers;
    OwedUpdate(s.adders, l.a, t.adders[l.a]);
    if l.AdderNotify? {
      SignalKeeps(s.clients, l.target, |s.pool|, Owed(t.adders));
    } else {
      OneMoreOwed(s.clients, |s.pool|, Owed(s.adders), |t.pool|, Owed(t.adders));
    }
  }

  lemma OwedUpdate(adders: seq<Adder>, a: nat, pc: Adder)
    requires a < |adders|
    ensures Owed(adders[a := pc])
         == Owed(adders) - (if adders[a].Appended? then 1 else 0) + (if pc.Appended? then 1 else 0)
  {
  }

  lemma OneMoreOwed(clients: seq<Client>, listed: nat, owed: nat, listed': nat, owed': nat)
    requires Covered(clients, listed, owed) && listed' - listed <= owed' - owed
    ensures Covered(clients, listed', owed')
  {
  }

  lemma WatcherKeeps(cfg: Config, s: State, l: Label, t: State)
    requires Undisturbed(cfg, s) && NoLostWakeup(s)
    requires RoleOf(l).ByWatcher? && (l.Join? ==> l.f.Valid()) && WatcherNext(cfg, s, l) == Some(t)
    ensures Undisturbed(cfg, t) && NoLostWakeup(t)
  {
    if l.Join? {
      assert Appended !in s.adders;
    }
  }

  lemma WakeupsKept(cfg: Config, s: State, l: Label, t: State)
    requires Undisturbed(cfg, s) && NoLostWakeup(s) && Step(cfg, s, l, t)
    ensures Undisturbed(cfg, t) && NoLostWakeup(t)
  {
    hide CallerNext, ClientNext, WatcherNext, AdderNext;
    match RoleOf(l)
    case ByCaller => CallerKeeps(cfg, s, l, t);
    case ByClient => ClientKeeps(cfg, s, l, t);
    case ByWatcher => WatcherKeeps(cfg, s, l, t);
    case ByAdder => AdderKeeps(cfg, s, l, t);
  }

  lemma {:induction false} TakersNeverMiss(cfg: Config, k: nat, n: nat, s: State)
    requires !cfg.checks || cfg.clients < 2
    requires ReachedIn(cfg, k, n, s)
    ensures Undisturbed(cfg, s) && NoLostWakeup(s)
  {
    hide Next;
    if n != 0 {
      var p, l :| ReachedIn(cfg, k, n - 1, p) && Step(cfg, p, l, s);
      TakersNeverMiss(cfg, k, n - 1, p);
      WakeupsKept(cfg, p, l, s);
    }
  }

  // ------------------------------------------------------------------------------------------
  // A checker swallows a notification

  /** Two threads wait; a refill lists one session and wakes the checker, which leaves it there. */
  lemma CheckerSwallows(cfg: Config) returns (s: State)
    requires cfg.Valid() && cfg.checks && 2 <= cfg.clients && 0 < cfg.size
    ensures ReachableHolding(cfg, 0, s)
    ensures |s.pool| == 1 && Sleeping(GetSession) in s.clients
    ensures Credits(s.clients) == 0 && Owed(s.adders) == 0
  {
    hide ReachableHolding;
    s := BothAsleep(cfg);
    s := BeginRefill(cfg, s);
    s := Deliver(cfg, s);
    s := WakeChecker(cfg, s);
    s := LeaveIt(cfg, s);
  }

  /** Reached from the start while clients hold nothing. */
  ghost predicate Reached(cfg: Config, s: State) {
    ReachableHolding(cfg, 0, s) && s.held == multiset{}
  }

  lemma Advance(cfg: Config, s: State, l: Label) returns (t: State)
    requires Reached(cfg, s) && (l.Join? ==> l.f.Valid())
    requires Next(cfg, s, l).Some? && Next(cfg, s, l).value.held == multiset{}
    ensures t == Next(cfg, s, l).value && Reached(cfg, t)
  {
    hide CallerNext, ClientNext, WatcherNext, AdderNext, ReachableHolding;
    t := Next(cfg, s, l).value;
    Extend(cfg, 0, s, l, t);
  }

  ghost predicate TwoWait(clients: seq<Client>, first: Client) {
    && 2 <= |clients| && clients[0] == first && clients[1] == Sleeping(GetSession)
    && forall i :: 2 <= i < |clients| ==> clients[i] == Client.Ready
  }

  lemma BothAsleep(cfg: Config) returns (s: State)
    requires cfg.Valid() && cfg.checks && 2 <= cfg.clients
    ensures Reached(cfg, s) && TwoWait(s.clients, Sleeping(IsConnected))
    ensures s == PoolFill.Start(cfg).(clients := s.clients)
  {
    hide ClientNext, WatcherNext, AdderNext, ReachableHolding;
    s := PoolFill.Start(cfg);
    PoolFill.StartReachable(cfg, 0);
    s := Advance(cfg, s, Enter(0, IsConnected));
    s := Advance(cfg, s, Enter(1, GetSession));
  }

  lemma BeginRefill(cfg: Config, s: State) returns (t: State)
    requires cfg.Valid() && 0 < cfg.size && Reached(cfg, s)
    requires s == PoolFill.Start(cfg).(clients := s.clients)
    ensures Reached(cfg, t) && t.clients == s.clients
    ensures t.pool == [] && t.adders == []
    ensures t.watcher.Refilling? && 0 < t.watcher.toSpawn
  {
    hide CallerNext, ClientNext, AdderNext, ReachableHolding;
    t := Advance(cfg, s, Sweep);
    AttemptsFitVacancy(t.strategy, cfg.size, t.now);
    t := Advance(cfg, t, Refill);
  }

  /** An adder thread, from its start to the end of its critical section. */
  lemma Deliver(cfg: Config, s: State) returns (t: State)
    requires Reached(cfg, s) && s.pool == [] && s.adders == []
    requires s.watcher.Refilling? && 0 < s.watcher.toSpawn
    ensures Reached(cfg, t) && t.clients == s.clients
    ensures |t.pool| == 1 && t.adders == [Appended]
  {
    hide CallerNext, ClientNext, ReachableHolding;
    t := Advance(cfg, s, Spawn);
    t := Advance(cfg, t, Connected(0));
    t := Advance(cfg, t, AdderAppend(0));
  }

  lemma WakeChecker(cfg: Config, s: State) returns (t: State)
    requires Reached(cfg, s) && TwoWait(s.clients, Sleeping(IsConnected))
    requires |s.pool| == 1 && s.adders == [Appended]
    ensures Reached(cfg, t) && TwoWait(t.clients, Woken(IsConnected))
    ensures |t.pool| == 1 && t.adders == [Done]
  {
    hide CallerNext, ClientNext, WatcherNext, ReachableHolding;
    t := Advance(cfg, s, AdderNotify(0, Some(0)));
  }

  lemma LeaveIt(cfg: Config, s: State) returns (t: State)
    requires Reached(cfg, s) && TwoWait(s.clients, Woken(IsConnected))
    requires |s.pool| == 1 && s.adders == [Done]
    ensures Reached(cfg, t)
    ensures |t.pool| == 1 && Sleeping(GetSession) in t.clients
    ensures Credits(t.clients) == 0 && Owed(t.adders) == 0
  {
    hide ClientNext, WatcherNext, AdderNext, ReachableHolding;
    t := Advance(cfg, s, Resume(0));
    NoCredits(t.clients);
    assert t.clients[1] in t.clients;
  }

  /**
    No notification is ever lost, on any run, if and only if no client calls `is_connected`, or a single
    client uses the pool, or the pool is empty by configuration.
   */
  lemma NoLostWakeupIff(cfg: Config)
    requires cfg.Valid()
    ensures (forall s :: Reachable(cfg, s) ==> NoLostWakeup(s))
       <==> (!cfg.checks || cfg.clients < 2 || cfg.size == 0)
  {
    hide Step, ReachedIn;
    if !cfg.checks || cfg.clients < 2 || cfg.size == 0 {
      forall s | Reachable(cfg, s)
        ensures NoLostWakeup(s)
      {
        var k: nat :| ReachableHolding(cfg, k, s);
        var n: nat :| ReachedIn(cfg, k, n, s);
        if cfg.size == 0 {
          PoolFill.ZeroSizeStaysDry(cfg, k, n, s);
          ReachedIsSafe(cfg, k, n, s);
        } else {
          TakersNeverMiss(cfg, k, n, s);
        }
      }
    } else {
      var s := CheckerSwallows(cfg);
      assert Reachable(cfg, s);
      assert !NoSleepers(s.clients);
    }
  }
}
