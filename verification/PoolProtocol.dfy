/**
  The connection pool as a labelled transition system. One step is one critical section of the pool
  mutex, or one thread-local action between two of them. Client threads, the watcher thread and the
  adder threads of a running refill interleave arbitrarily; every choice the scheduler, the clock,
  the network or a timed lock makes is in the label.
 */
module PoolProtocol {
  import opened Common
  import opened PoolStrategy

  /** An established stream. Streams are numbered in the order in which they were established. */
  type Session = nat

  /** An element of `sesson_pool_`. */
  datatype Entry = Entry(stamp: Time, session: Session)

  // ------------------------------------------------------------------------------------------
  // The session list

  predicate Outdated(e: Entry, now: Time, idle: Time) {
    now - e.stamp >= idle
  }

  /** The entries the watcher keeps. */
  function Kept(pool: seq<Entry>, now: Time, idle: Time): (r: seq<Entry>)
    ensures |r| <= |pool|
  {
    if pool == [] then []
    else (if Outdated(pool[0], now, idle) then [] else [pool[0]]) + Kept(pool[1..], now, idle)
  }

  function Vacancy(size: nat, current: nat): nat {
    if size > current then size - current else 0
  }

  ghost predicate Sorted(entries: seq<Entry>) {
    forall i, j :: 0 <= i < j < |entries| ==> entries[i].stamp <= entries[j].stamp
  }

  lemma {:induction false} AllKept(pool: seq<Entry>, now: Time, idle: Time)
    requires forall i :: 0 <= i < |pool| ==> !Outdated(pool[i], now, idle)
    ensures Kept(pool, now, idle) == pool
  {
    if pool != [] {
      AllKept(pool[1..], now, idle);
    }
  }

  /** The watcher keeps exactly the entries that have been listed for less than the idle timeout. */
  lemma {:induction false} KeptExactly(pool: seq<Entry>, now: Time, idle: Time, e: Entry)
    ensures multiset(Kept(pool, now, idle))[e] == if now - e.stamp < idle then multiset(pool)[e] else 0
  {
    if pool != [] {
      assert pool == [pool[0]] + pool[1..];
      KeptExactly(pool[1..], now, idle, e);
    }
  }

  /** In a list ordered by time the watcher removes exactly a prefix: the outdated entries. */
  lemma {:induction false} SweepRemovesPrefix(pool: seq<Entry>, now: Time, idle: Time)
    requires Sorted(pool)
    ensures var gone := |pool| - |Kept(pool, now, idle)|;
      && Kept(pool, now, idle) == pool[gone..]
      && (forall i :: 0 <= i < |pool| ==> (now - pool[i].stamp >= idle <==> i < gone))
  {
    if pool != [] {
      if Outdated(pool[0], now, idle) {
        var rest := pool[1..];
        SweepRemovesPrefix(rest, now, idle);
        assert Kept(pool, now, idle) == Kept(rest, now, idle);
        var gone := |pool| - |Kept(pool, now, idle)|;
        forall i | 0 <= i < |pool|
          ensures now - pool[i].stamp >= idle <==> i < gone
        {
          if i != 0 {
            assert pool[i] == rest[i - 1];
          }
        }
      } else {
        AllKept(pool, now, idle);
      }
    }
  }

  /** How often a session occurs in a list of entries. */
  function InList(entries: seq<Entry>, id: Session): nat {
    if entries == [] then 0
    else (if entries[0].session == id then 1 else 0) + InList(entries[1..], id)
  }

  lemma {:induction false} InListConcat(left: seq<Entry>, right: seq<Entry>, id: Session)
    ensures InList(left + right, id) == InList(left, id) + InList(right, id)
  {
    if left == [] {
      assert left + right == right;
    } else {
      assert (left + right)[1..] == left[1..] + right;
      InListConcat(left[1..], right, id);
    }
  }

  // ------------------------------------------------------------------------------------------
  // Threads

  /** The two calls that wait on the condition variable. */
  datatype Call = GetSession | IsConnected

  /**
    Where a client thread is: outside the pool, asleep on the condition variable, notified (or woken
    spuriously) but not yet holding the mutex again, past its deadline and about to look once more, or
    past the critical section of `return_session` and about to notify.
   */
  datatype Client = Ready | Sleeping(call: Call) | Woken(call: Call) | Late(call: Call) | MustNotify

  /** An adder thread: in `new_session`, carrying its session to the pool, about to notify, finished. */
  datatype Adder = Connecting | Carrying(session: Session) | Appended | Done

  /** The watcher: outside its critical section, holding a vacancy count, or inside `refill`. */
  datatype Watcher = Idle | Swept(vacant: nat) | Refilling(toSpawn: nat)

  /** How many adder threads carry a session. */
  function Carriers(adders: seq<Adder>): nat {
    if adders == [] then 0
    else (if adders[0].Carrying? then 1 else 0) + Carriers(adders[1..])
  }

  lemma {:induction false} CarriersUpdate(adders: seq<Adder>, i: nat, a: Adder)
    requires i < |adders|
    ensures Carriers(adders[i := a])
         == Carriers(adders) - (if adders[i].Carrying? then 1 else 0) + (if a.Carrying? then 1 else 0)
  {
    if i == 0 {
      assert adders[i := a][1..] == adders[1..];
    } else {
      assert adders[i := a][1..] == adders[1..][i - 1 := a];
      CarriersUpdate(adders[1..], i - 1, a);
    }
  }

  lemma {:induction false} CarriersAppend(adders: seq<Adder>, a: Adder)
    ensures Carriers(adders + [a]) == Carriers(adders) + if a.Carrying? then 1 else 0
  {
    if adders == [] {
      assert (adders + [a])[1..] == [];
    } else {
      assert (adders + [a])[1..] == adders[1..] + [a];
      CarriersAppend(adders[1..], a);
    }
  }

  predicate AllDone(adders: seq<Adder>) {
    forall i :: 0 <= i < |adders| ==> adders[i] == Done
  }

  lemma {:induction false} NothingCarried(adders: seq<Adder>)
    requires AllDone(adders)
    ensures Carriers(adders) == 0 && multiset(adders)[Connecting] == 0
    ensures forall id :: multiset(adders)[Carrying(id)] == 0
  {
    if adders != [] {
      NothingCarried(adders[1..]);
      assert adders == [adders[0]] + adders[1..];
    }
  }

  // ------------------------------------------------------------------------------------------
  // States and labels

  /** `clients` threads use the pool; `checks` says whether they ever call `is_connected`. */
  datatype Config = Config(size: nat, idle: Time, clients: nat, checks: bool, strategy: Strategy) {
    ghost predicate Valid() {
      && size + 2 < WORD
      && strategy.Valid()
      && (strategy.Conservative? ==> strategy.currentDelay == 0 && strategy.waitUntil == 0)
    }
  }

  /**
    `held` are the sessions in the hands of clients, `destroyed` those that were closed, oldest first;
    `log` records every entry ever appended and `removed` how many of them have left the list.
   */
  datatype State = State(
    now: Time,
    pool: seq<Entry>,
    clients: seq<Client>,
    watcher: Watcher,
    adders: seq<Adder>,
    added: bool,
    strategy: Strategy,
    held: multiset<Session>,
    destroyed: seq<Entry>,
    created: nat,
    log: seq<Entry>,
    removed: nat)

  datatype Label =
    | Tick(ticks: nat)
    | LockTimeout(c: nat)
    | Enter(c: nat, call: Call)
    | TryGet(c: nat)
    | Expire(c: nat)
    | Spurious(c: nat)
    | Resume(c: nat)
    | GiveUp(c: nat)
    | Return(c: nat, session: Session)
    | Notify(c: nat, target: Option<nat>)
    | Drop(session: Session)
    | Sweep
    | Refill
    | Spawn
    | Connected(a: nat)
    | ConnectFailed(a: nat)
    | AdderAppend(a: nat)
    | AdderDrop(a: nat)
    | AdderNotify(a: nat, target: Option<nat>)
    | Join(f: Factor)

  predicate NoSleepers(clients: seq<Client>) {
    forall i :: 0 <= i < |clients| ==> !clients[i].Sleeping?
  }

  /** `notify_one`: wakes one sleeping thread, whichever the scheduler picks, if there is one. */
  function Signal(clients: seq<Client>, target: Option<nat>): Option<seq<Client>> {
    match target
    case None => if NoSleepers(clients) then Some(clients) else None
    case Some(t) =>
      if t < |clients| && clients[t].Sleeping? then Some(clients[t := Woken(clients[t].call)]) else None
  }

  predicate IsReady(s: State, c: nat) {
    c < |s.clients| && s.clients[c].Ready?
  }

  function SetClient(s: State, c: nat, pc: Client): State
    requires c < |s.clients|
  {
    s.(clients := s.clients[c := pc])
  }

  function SetAdder(s: State, a: nat, pc: Adder): State
    requires a < |s.adders|
  {
    s.(adders := s.adders[a := pc])
  }

  /** Moving the front session of a non-empty list into a client's hands. */
  function PopFront(s: State): State
    requires s.pool != []
  {
    s.(pool := s.pool[1..], held := s.held + multiset{s.pool[0].session}, removed := s.removed + 1)
  }

  /** A waiting call that finds the list non-empty returns. */
  function Succeed(s: State, c: nat, call: Call): State
    requires s.pool != [] && c < |s.clients|
  {
    SetClient(if call.GetSession? then PopFront(s) else s, c, Client.Ready)
  }

  function Append(s: State, session: Session): State {
    var e := Entry(s.now, session);
    s.(pool := s.pool + [e], log := s.log + [e])
  }

  function Evict(s: State, idle: Time): State {
    var kept := Kept(s.pool, s.now, idle);
    var gone := |s.pool| - |kept|;
    s.(pool := kept, removed := s.removed + gone, destroyed := s.destroyed + s.pool[..gone])
  }

  /**
    Which thread takes the step: a client inside a call that looks for a session, a client elsewhere
    (or the clock), the watcher, or an adder.
   */
  datatype Role = ByCaller | ByClient | ByWatcher | ByAdder

  function RoleOf(l: Label): Role {
    match l
    case Enter(_, _) => ByCaller
    case TryGet(_) => ByCaller
    case Resume(_) => ByCaller
    case GiveUp(_) => ByCaller
    case Sweep => ByWatcher
    case Refill => ByWatcher
    case Spawn => ByWatcher
    case Join(_) => ByWatcher
    case Connected(_) => ByAdder
    case ConnectFailed(_) => ByAdder
    case AdderAppend(_) => ByAdder
    case AdderDrop(_) => ByAdder
    case AdderNotify(_, _) => ByAdder
    case _ => ByClient
  }

  /** Is the client of a caller's label where it must be to look at the list under the mutex? */
  predicate MayLook(cfg: Config, s: State, l: Label)
    requires RoleOf(l).ByCaller?
  {
    l.c < |s.clients| &&
    match l
    case Enter(c, call) => s.clients[c].Ready? && (call.IsConnected? ==> cfg.checks)
    case TryGet(c) => s.clients[c].Ready?
    case Resume(c) => s.clients[c].Woken?
    case GiveUp(c) => s.clients[c].Woken? || s.clients[c].Late?
  }

  /** The call a caller's label belongs to. */
  function CallOf(cfg: Config, s: State, l: Label): Call
    requires RoleOf(l).ByCaller? && MayLook(cfg, s, l)
  {
    match l
    case Enter(_, call) => call
    case TryGet(_) => GetSession
    case Resume(c) => s.clients[c].call
    case GiveUp(c) => s.clients[c].call
  }

  /** Whether the call sleeps (again) over an empty list; otherwise it returns `not_found`. */
  predicate Sleeps(l: Label) {
    l.Enter? || l.Resume?
  }

  /** The critical sections of `get_session`, `try_get_session` and `is_connected`. */
  function CallerNext(cfg: Config, s: State, l: Label): Option<State>
    requires RoleOf(l).ByCaller?
  {
    if !MayLook(cfg, s, l) then None
    else
      var call := CallOf(cfg, s, l);
      if s.pool != [] then Some(Succeed(s, l.c, call))
      else Some(SetClient(s, l.c, if Sleeps(l) then Sleeping(call) else Client.Ready))
  }

  function ClientNext(s: State, l: Label): Option<State>
    requires RoleOf(l).ByClient?
  {
    match l
    case Tick(ticks) => Some(s.(now := s.now + ticks))
    case LockTimeout(c) => if IsReady(s, c) then Some(s) else None
    case Expire(c) =>
      if c < |s.clients| && s.clients[c].Sleeping? then Some(SetClient(s, c, Late(s.clients[c].call))) else None
    case Spurious(c) =>
      if c < |s.clients| && s.clients[c].Sleeping? then Some(SetClient(s, c, Woken(s.clients[c].call))) else None
    case Return(c, session) =>
      if IsReady(s, c) && session in s.held
      then Some(SetClient(Append(s, session), c, MustNotify).(held := s.held - multiset{session}))
      else None
    case Notify(c, target) =>
      if !(c < |s.clients| && s.clients[c].MustNotify?) then None
      else
        var woken := Signal(s.clients[c := Client.Ready], target);
        if woken.None? then None else Some(s.(clients := woken.value))
    case Drop(session) =>
      if session in s.held
      then Some(s.(held := s.held - multiset{session}, destroyed := s.destroyed + [Entry(s.now, session)]))
      else None
  }

  function WatcherNext(cfg: Config, s: State, l: Label): Option<State>
    requires RoleOf(l).ByWatcher? && (l.Join? ==> l.f.Valid())
  {
    match l
    case Sweep =>
      if !s.watcher.Idle? then None
      else var t := Evict(s, cfg.idle); Some(t.(watcher := Swept(Vacancy(cfg.size, |t.pool|))))
    case Refill =>
      if !s.watcher.Swept? then None
      else if s.watcher.vacant == 0 || s.strategy.Waits(s.now) then Some(s.(watcher := Idle))
      else Some(s.(watcher := Refilling(Attempts(s.strategy, s.watcher.vacant, s.now)), added := false))
    case Spawn =>
      if s.watcher.Refilling? && 0 < s.watcher.toSpawn
      then Some(s.(watcher := Refilling(s.watcher.toSpawn - 1), adders := s.adders + [Connecting]))
      else None
    case Join(f) =>
      if s.watcher == Refilling(0) && AllDone(s.adders)
      then Some(s.(watcher := Idle, adders := [], strategy := Finish(s.strategy, s.added, s.now, f)))
      else None
  }

  function AdderNext(s: State, l: Label): Option<State>
    requires RoleOf(l).ByAdder?
  {
    match l
    case Connected(a) =>
      if a < |s.adders| && s.adders[a].Connecting?
      then Some(SetAdder(s, a, Carrying(s.created)).(created := s.created + 1))
      else None
    case ConnectFailed(a) =>
      if a < |s.adders| && s.adders[a].Connecting? then Some(SetAdder(s, a, Done)) else None
    case AdderAppend(a) =>
      if a < |s.adders| && s.adders[a].Carrying?
      then Some(SetAdder(Append(s, s.adders[a].session), a, Appended))
      else None
    case AdderDrop(a) =>
      if a < |s.adders| && s.adders[a].Carrying?
      then Some(SetAdder(s, a, Done).(
                  destroyed := s.destroyed + [Entry(s.now, s.adders[a].session)], added := true))
      else None
    case AdderNotify(a, target) =>
      if !(a < |s.adders| && s.adders[a].Appended?) then None
      else
        var woken := Signal(s.clients, target);
        if woken.None? then None else Some(SetAdder(s, a, Done).(clients := woken.value, added := true))
  }

  /** The step with label `l` from `s`, or None when it is not enabled. */
  function Next(cfg: Config, s: State, l: Label): Option<State>
    requires l.Join? ==> l.f.Valid()
  {
    match RoleOf(l)
    case ByCaller => CallerNext(cfg, s, l)
    case ByClient => ClientNext(s, l)
    case ByWatcher => WatcherNext(cfg, s, l)
    case ByAdder => AdderNext(s, l)
  }

  ghost predicate Step(cfg: Config, s: State, l: Label, t: State) {
    (l.Join? ==> l.f.Valid()) && Next(cfg, s, l) == Some(t)
  }

  ghost predicate Init(cfg: Config, s: State) {
    && 0 <= s.now
    && s.pool == [] && s.log == [] && s.removed == 0
    && s.clients == seq(cfg.clients, _ => Client.Ready)
    && s.watcher == Idle && s.adders == [] && !s.added
    && s.strategy == cfg.strategy
    && s.held == multiset{} && s.destroyed == [] && s.created == 0
  }

  /** States reached in `n` steps without clients ever holding more than `k` sessions at once. */
  ghost predicate ReachedIn(cfg: Config, k: nat, n: nat, s: State) {
    && |s.held| <= k
    && if n == 0 then Init(cfg, s)
       else exists p, l :: ReachedIn(cfg, k, n - 1, p) && Step(cfg, p, l, s)
  }

  ghost predicate ReachableHolding(cfg: Config, k: nat, s: State) {
    exists n: nat :: ReachedIn(cfg, k, n, s)
  }

  ghost predicate Reachable(cfg: Config, s: State) {
    exists k: nat :: ReachableHolding(cfg, k, s)
  }

  lemma Extend(cfg: Config, k: nat, s: State, l: Label, t: State)
    requires ReachableHolding(cfg, k, s) && Step(cfg, s, l, t) && |t.held| <= k
    ensures ReachableHolding(cfg, k, t)
  {
    var n: nat :| ReachedIn(cfg, k, n, s);
    assert ReachedIn(cfg, k, n + 1 - 1, s) && Step(cfg, s, l, t);
    assert ReachedIn(cfg, k, n + 1, t);
  }

  // ------------------------------------------------------------------------------------------
  // What every step keeps

  /** The list is what remains of the append log, in order; the log is ordered by time. */
  ghost predicate InOrder(s: State) {
    Ordered(s.pool, s.log, s.removed, s.now)
  }

  ghost predicate Ordered(pool: seq<Entry>, log: seq<Entry>, removed: nat, now: Time) {
    && removed <= |log|
    && pool == log[removed..]
    && Sorted(log)
    && forall i :: 0 <= i < |log| ==> log[i].stamp <= now
  }

  /** In how many places a session is: the list, an adder's hands, a client's hands, destroyed. */
  ghost function Places(s: State, id: Session): nat {
    InList(s.pool, id) + multiset(s.adders)[Carrying(id)] + s.held[id] + InList(s.destroyed, id)
  }

  /** Every session ever established is in exactly one place, and no other session exists. */
  ghost predicate Conserved(s: State) {
    forall id: Session :: Places(s, id) == if id < s.created then 1 else 0
  }

  ghost predicate WatcherInv(cfg: Config, s: State) {
    && s.strategy.Valid()
    && (s.strategy.Greedy? <==> cfg.strategy.Greedy?)
    && (!s.watcher.Refilling? ==> s.adders == [])
    && (s.watcher.Swept? ==> s.watcher.vacant <= cfg.size)
    && (s.strategy.Conservative? ==>
          && s.strategy.waitUntil <= s.now + s.strategy.currentDelay * TICKS_PER_MS
          && (s.watcher.Refilling? ==> s.strategy.waitUntil <= s.now))
  }

  /** Sessions the running refill may still add. */
  ghost function Outstanding(s: State): nat {
    (match s.watcher
     case Idle => 0
     case Swept(vacant) => vacant
     case Refilling(toSpawn) => toSpawn)
    + multiset(s.adders)[Connecting] + Carriers(s.adders)
  }

  lemma PopKeepsOrder(s: State)
    requires InOrder(s) && s.pool != []
    ensures InOrder(PopFront(s))
  {
  }

  lemma PushKeepsOrder(s: State, session: Session)
    requires InOrder(s)
    ensures InOrder(Append(s, session)) && s.log <= Append(s, session).log
  {
  }

  lemma SweepKeepsOrder(s: State, idle: Time)
    requires InOrder(s)
    ensures InOrder(Evict(s, idle))
  {
    SweepRemovesPrefix(s.pool, s.now, idle);
  }

  lemma CallerKeepsOrder(cfg: Config, s: State, l: Label, t: State)
    requires InOrder(s) && RoleOf(l).ByCaller? && CallerNext(cfg, s, l) == Some(t)
    ensures InOrder(t) && s.log <= t.log && s.removed <= t.removed
  {
    if s.pool != [] {
      PopKeepsOrder(s);
    }
  }

  lemma ClientKeepsOrder(s: State, l: Label, t: State)
    requires InOrder(s) && RoleOf(l).ByClient? && ClientNext(s, l) == Some(t)
    ensures InOrder(t) && s.log <= t.log && s.removed <= t.removed
  {
    if l.Return? {
      PushKeepsOrder(s, l.session);
    }
  }

  lemma WatcherKeepsOrder(cfg: Config, s: State, l: Label, t: State)
    requires InOrder(s) && RoleOf(l).ByWatcher? && (l.Join? ==> l.f.Valid()) && WatcherNext(cfg, s, l) == Some(t)
    ensures InOrder(t) && s.log <= t.log && s.removed <= t.removed
  {
    SweepKeepsOrder(s, cfg.idle);
  }

  lemma AdderKeepsOrder(s: State, l: Label, t: State)
    requires InOrder(s) && RoleOf(l).ByAdder? && AdderNext(s, l) == Some(t)
    ensures InOrder(t) && s.log <= t.log && s.removed <= t.removed
  {
    if l.AdderAppend? {
      PushKeepsOrder(s, s.adders[l.a].session);
    }
  }

  lemma OrderKept(cfg: Config, s: State, l: Label, t: State)
    requires InOrder(s) && Step(cfg, s, l, t)
    ensures InOrder(t) && s.log <= t.log && s.removed <= t.removed
  {
    hide CallerNext, ClientNext, WatcherNext, AdderNext;
    match RoleOf(l)
    case ByCaller => CallerKeepsOrder(cfg, s, l, t);
    case ByClient => ClientKeepsOrder(s, l, t);
    case ByWatcher => WatcherKeepsOrder(cfg, s, l, t);
    case ByAdder => AdderKeepsOrder(s, l, t);
  }

  lemma PopMoves(s: State, id: Session)
    requires s.pool != []
    ensures Places(PopFront(s), id) == Places(s, id)
  {
  }

  lemma PushMoves(s: State, session: Session, id: Session)
    ensures InList(Append(s, session).pool, id) == InList(s.pool, id) + if session == id then 1 else 0
    ensures InList(s.destroyed + [Entry(s.now, session)], id)
         == InList(s.destroyed, id) + if session == id then 1 else 0
  {
    InListConcat(s.pool, [Entry(s.now, session)], id);
    InListConcat(s.destroyed, [Entry(s.now, session)], id);
  }

  lemma CallerMoves(cfg: Config, s: State, l: Label, t: State, id: Session)
    requires RoleOf(l).ByCaller? && CallerNext(cfg, s, l) == Some(t)
    ensures Places(t, id) == Places(s, id) && t.created == s.created
  {
    if s.pool != [] {
      PopMoves(s, id);
    }
  }

  lemma ClientMoves(s: State, l: Label, t: State, id: Session)
    requires RoleOf(l).ByClient? && ClientNext(s, l) == Some(t)
    ensures Places(t, id) == Places(s, id) && t.created == s.created
  {
    hide InList, Signal;
    if l.Return? || l.Drop? {
      PushMoves(s, l.session, id);
    }
  }

  lemma SweepMoves(cfg: Config, s: State, id: Session)
    requires InOrder(s)
    ensures Places(Evict(s, cfg.idle), id) == Places(s, id)
  {
    SweepRemovesPrefix(s.pool, s.now, cfg.idle);
    hide Kept, InList, Ordered;
    var gone := |s.pool| - |Kept(s.pool, s.now, cfg.idle)|;
    assert s.pool == s.pool[..gone] + s.pool[gone..];
    InListConcat(s.pool[..gone], s.pool[gone..], id);
    InListConcat(s.destroyed, s.pool[..gone], id);
  }

  lemma WatcherMoves(cfg: Config, s: State, l: Label, t: State, id: Session)
    requires InOrder(s)
    requires RoleOf(l).ByWatcher? && (l.Join? ==> l.f.Valid()) && WatcherNext(cfg, s, l) == Some(t)
    ensures Places(t, id) == Places(s, id) && t.created == s.created
  {
    match l
    case Sweep => SweepMoves(cfg, s, id);
    case Refill =>
    case Spawn =>
    case Join(_) => NothingCarried(s.adders);
  }

  lemma CarriedUpdate(adders: seq<Adder>, a: nat, pc: Adder, id: Session)
    requires a < |adders|
    ensures multiset(adders[a := pc])[Carrying(id)]
         == multiset(adders)[Carrying(id)] - (if adders[a] == Carrying(id) then 1 else 0)
            + (if pc == Carrying(id) then 1 else 0)
  {
  }

  lemma AdderMoves(s: State, l: Label, t: State, id: Session)
    requires RoleOf(l).ByAdder? && AdderNext(s, l) == Some(t)
    ensures Places(t, id) == Places(s, id) + if l.Connected? && id == s.created then 1 else 0
    ensures t.created == s.created + if l.Connected? then 1 else 0
  {
    hide InList, Signal;
    CarriedUpdate(s.adders, l.a, t.adders[l.a], id);
    if s.adders[l.a].Carrying? {
      PushMoves(s, s.adders[l.a].session, id);
    }
  }
}
