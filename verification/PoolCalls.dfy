/**
  Whole calls and whole refills of the pool protocol. A call that waits for a session looks at the list
  once at first and once after every wake-up; in between all other threads go on. A refill runs from the
  watcher's decision to the joining of its adders, interleaved with everything else.
 */
module PoolCalls {
  import opened Common
  import opened PoolStrategy
  import opened PoolProtocol
  import opened PoolSafety

  // ------------------------------------------------------------------------------------------
  // Waiting

  /**
    What a thread blocked in `wait_until` finds each time it holds the mutex again: the list other
    threads left, and whether its deadline has passed.
   */
  datatype Wake = Wake(list: seq<Entry>, late: bool)

  /**
    The list at the end of `wait_until`: the first non-empty one found, or the one found when the
    deadline had passed. When the wake-ups are used up, the deadline passes over the list as it is.
   */
  function Awaited(list: seq<Entry>, wakes: seq<Wake>): seq<Entry>
    decreases |wakes|
  {
    if list != [] || wakes == [] then list
    else if wakes[0].late then wakes[0].list
    else Awaited(wakes[0].list, wakes[1..])
  }

  /** Otherwise it ends with the first list found that is not empty. */
  lemma {:induction false} WaitEndsWithFirst(list: seq<Entry>, wakes: seq<Wake>, i: nat)
    requires list == [] && i < |wakes| && InTime(wakes, i) && wakes[i].list != []
    requires forall j :: 0 <= j < i ==> wakes[j].list == []
    ensures Awaited(list, wakes) == wakes[i].list
    decreases i
  {
    if i != 0 {
      LaterInTime(wakes, i - 1);
      WaitEndsWithFirst([], wakes[1..], i - 1);
    }
  }

  /** The wait fails exactly if the list was empty at every look up to the deadline. */
  lemma {:induction false} WaitFailsIff(list: seq<Entry>, wakes: seq<Wake>)
    ensures list != [] ==> Awaited(list, wakes) == list
    ensures Awaited(list, wakes) == [] <==>
      list == [] && forall i :: 0 <= i < |wakes| && InTime(wakes, i) ==> wakes[i].list == []
    decreases |wakes|
  {
    if list == [] && wakes != [] {
      var rest := wakes[1..];
      if !wakes[0].late {
        WaitFailsIff(wakes[0].list, rest);
        forall i | 0 <= i < |rest|
          ensures InTime(rest, i) <==> InTime(wakes, i + 1)
        {
          LaterInTime(wakes, i);
        }
        forall i | 0 < i < |wakes|
          ensures wakes[i] == rest[i - 1]
        {
        }
        assert InTime(wakes, 0);
      } else {
        assert InTime(wakes, 0);
      }
    }
  }

  /** No wake-up before number `i` came after the deadline. */
  ghost predicate InTime(wakes: seq<Wake>, i: nat)
    requires i < |wakes|
  {
    forall j :: 0 <= j < i ==> !wakes[j].late
  }

  lemma LaterInTime(wakes: seq<Wake>, i: nat)
    requires i + 1 < |wakes| && !wakes[0].late
    ensures InTime(wakes[1..], i) <==> InTime(wakes, i + 1)
  {
    assert forall j :: 0 <= j < i ==> wakes[1..][j] == wakes[j + 1];
  }

  /** A wait that has found nothing so far is decided by its next look. */
  lemma {:induction false} LastLookDecides(wakes: seq<Wake>, last: Wake)
    requires forall i :: 0 <= i < |wakes| ==> wakes[i] == Wake([], false)
    ensures Awaited([], wakes + [last]) == last.list
    decreases |wakes|
  {
    if wakes != [] {
      assert (wakes + [last])[1..] == wakes[1..] + [last];
      LastLookDecides(wakes[1..], last);
    }
  }

  // ------------------------------------------------------------------------------------------
  // Calls in the protocol

  /** What a call answers by the list it saw last, and the list it leaves. */
  function Answer(call: Call, seen: seq<Entry>): Reply {
    if seen == [] then NotFound
    else if call.GetSession? then Got(seen[0].session)
    else NonEmpty
  }

  function Left(call: Call, seen: seq<Entry>): seq<Entry> {
    if seen != [] && call.GetSession? then seen[1..] else seen
  }

  /** Step `l` is a look of client `c` at the list. */
  predicate LookOf(l: Label, c: nat) {
    RoleOf(l).ByCaller? && l.c == c
  }

  /**
    Client `c` began `call` in state `o` and is still in it in state `s`, `n` steps of any threads after
    its first look; `wakes` are its looks since then.
   */
  ghost predicate InCall(cfg: Config, c: nat, call: Call, o: State, n: nat, wakes: seq<Wake>, s: State) {
    if n == 0 then wakes == [] && Step(cfg, o, Enter(c, call), s) && ReplyOf(cfg, o, Enter(c, call)).NoReply?
    else exists p: State, l: Label ::
      && Step(cfg, p, l, s)
      && if LookOf(l, c)
         then
           && wakes != [] && wakes[|wakes| - 1] == Wake(p.pool, l.GiveUp?) && ReplyOf(cfg, p, l).NoReply?
           && InCall(cfg, c, call, o, n - 1, wakes[..|wakes| - 1], p)
         else InCall(cfg, c, call, o, n - 1, wakes, p)
  }

  /** The client is asleep in `call`, or on its way to another look. */
  ghost predicate Pending(s: State, c: nat, call: Call) {
    c < |s.clients| && s.clients[c] in {Sleeping(call), Woken(call), Late(call)}
  }

  ghost predicate FoundNothing(wakes: seq<Wake>) {
    forall i :: 0 <= i < |wakes| ==> wakes[i] == Wake([], false)
  }

  lemma SignalLeavesPending(clients: seq<Client>, target: Option<nat>, c: nat, call: Call)
    requires c < |clients| && clients[c] in {Sleeping(call), Woken(call), Late(call)}
    requires Signal(clients, target).Some?
    ensures var woken := Signal(clients, target).value;
      c < |woken| && woken[c] in {Sleeping(call), Woken(call), Late(call)}
  {
  }

  lemma ClientsLeavePending(s: State, l: Label, t: State, c: nat, call: Call)
    requires RoleOf(l).ByClient? && ClientNext(s, l) == Some(t) && Pending(s, c, call)
    ensures Pending(t, c, call)
  {
    hide Signal;
    if l.Notify? {
      SignalLeavesPending(s.clients[l.c := Client.Ready], l.target, c, call);
    }
  }

  lemma AddersLeavePending(s: State, l: Label, t: State, c: nat, call: Call)
    requires RoleOf(l).ByAdder? && AdderNext(s, l) == Some(t) && Pending(s, c, call)
    ensures Pending(t, c, call)
  {
    hide Signal;
    if l.AdderNotify? {
      SignalLeavesPending(s.clients, l.target, c, call);
    }
  }

  lemma OthersLeavePending(cfg: Config, s: State, l: Label, t: State, c: nat, call: Call)
    requires Step(cfg, s, l, t) && !LookOf(l, c) && Pending(s, c, call)
    ensures Pending(t, c, call)
  {
    hide ClientNext, AdderNext;
    match RoleOf(l)
    case ByCaller =>
    case ByClient => ClientsLeavePending(s, l, t, c, call);
    case ByWatcher => assert t.clients == s.clients;
    case ByAdder => AddersLeavePending(s, l, t, c, call);
  }

  /** A look without an answer found nothing before the deadline, and the client sleeps again. */
  lemma LookSleeps(cfg: Config, s: State, l: Label, t: State, c: nat, call: Call)
    requires Step(cfg, s, l, t) && LookOf(l, c) && ReplyOf(cfg, s, l).NoReply?
    requires Pending(s, c, call) || l == Enter(c, call)
    ensures s.pool == [] && !l.GiveUp? && Pending(t, c, call)
  {
  }

  lemma {:induction false} InCallFacts(
    cfg: Config, c: nat, call: Call, o: State, n: nat, wakes: seq<Wake>, s: State)
    requires InCall(cfg, c, call, o, n, wakes, s)
    ensures o.pool == [] && FoundNothing(wakes) && Pending(s, c, call)
  {
    hide Next, ReplyOf, Pending;
    if n == 0 {
      LookSleeps(cfg, o, Enter(c, call), s, c, call);
    } else {
      var p: State, l: Label :|
        && Step(cfg, p, l, s)
        && if LookOf(l, c)
           then
             && wakes != [] && wakes[|wakes| - 1] == Wake(p.pool, l.GiveUp?) && ReplyOf(cfg, p, l).NoReply?
             && InCall(cfg, c, call, o, n - 1, wakes[..|wakes| - 1], p)
           else InCall(cfg, c, call, o, n - 1, wakes, p);
      if LookOf(l, c) {
        InCallFacts(cfg, c, call, o, n - 1, wakes[..|wakes| - 1], p);
        LookSleeps(cfg, p, l, s, c, call);
      } else {
        InCallFacts(cfg, c, call, o, n - 1, wakes, p);
        OthersLeavePending(cfg, p, l, s, c, call);
      }
    }
  }

  /** The step of a look: it answers unless it found nothing before the deadline. */
  lemma LookAnswers(cfg: Config, s: State, l: Label, t: State, c: nat, call: Call)
    requires Step(cfg, s, l, t) && LookOf(l, c) && Pending(s, c, call)
    ensures ReplyOf(cfg, s, l).NoReply? <==> s.pool == [] && !l.GiveUp?
    ensures !ReplyOf(cfg, s, l).NoReply? ==>
      ReplyOf(cfg, s, l) == Answer(call, s.pool) && t.pool == Left(call, s.pool) && t.clients[c].Ready?
  {
  }

  /**
    However a waiting call interleaves with all other threads, it answers by what its own looks found: the
    first non-empty list, or none if the list was empty at every look up to the one after its deadline.
    That is the result of the waiting loop over those looks.
   */
  lemma CallAnswers(
    cfg: Config, c: nat, call: Call, o: State, n: nat, wakes: seq<Wake>, s: State, l: Label, t: State)
    requires InCall(cfg, c, call, o, n, wakes, s) && LookOf(l, c) && Step(cfg, s, l, t)
    ensures var looks := wakes + [Wake(s.pool, l.GiveUp?)];
      var seen := Awaited(o.pool, looks);
      && (ReplyOf(cfg, s, l).NoReply? <==> seen == [] && !looks[|wakes|].late)
      && (!ReplyOf(cfg, s, l).NoReply? ==>
            ReplyOf(cfg, s, l) == Answer(call, seen) && t.pool == Left(call, seen) && t.clients[c].Ready?)
    ensures ReplyOf(cfg, s, l).NotFound? ==>
      o.pool == [] && s.pool == [] && l.GiveUp? && forall i :: 0 <= i < |wakes| ==> wakes[i].list == []
  {
    hide InCall, Step, Awaited, Answer;
    InCallFacts(cfg, c, call, o, n, wakes, s);
    LastLookDecides(wakes, Wake(s.pool, l.GiveUp?));
    LookAnswers(cfg, s, l, t, c, call);
    NotFoundOverNothing(call, s.pool);
  }

  /** `t` follows `s` after `n` steps of any threads, none of them a look of client `c`. */
  ghost predicate NoLook(cfg: Config, c: nat, n: nat, s: State, t: State) {
    if n == 0 then t == s
    else exists p: State, l: Label :: NoLook(cfg, c, n - 1, s, p) && !LookOf(l, c) && Step(cfg, p, l, t)
  }

  lemma SignalLeavesLate(clients: seq<Client>, target: Option<nat>, c: nat)
    requires c < |clients| && clients[c].Late? && Signal(clients, target).Some?
    ensures var woken := Signal(clients, target).value; c < |woken| && woken[c] == clients[c]
  {
  }

  lemma OthersLeaveLate(cfg: Config, s: State, l: Label, t: State, c: nat)
    requires Step(cfg, s, l, t) && !LookOf(l, c) && c < |s.clients| && s.clients[c].Late?
    ensures c < |t.clients| && t.clients[c] == s.clients[c]
  {
    hide ClientNext, AdderNext, Kept;
    match RoleOf(l)
    case ByCaller =>
    case ByClient => ClientsLeaveLate(s, l, t, c);
    case ByWatcher => assert t.clients == s.clients;
    case ByAdder => AddersLeaveLate(s, l, t, c);
  }

  lemma ClientsLeaveLate(s: State, l: Label, t: State, c: nat)
    requires RoleOf(l).ByClient? && ClientNext(s, l) == Some(t) && c < |s.clients| && s.clients[c].Late?
    ensures c < |t.clients| && t.clients[c] == s.clients[c]
  {
    hide Signal;
    if l.Notify? {
      SignalLeavesLate(s.clients[l.c := Client.Ready], l.target, c);
    }
  }

  lemma AddersLeaveLate(s: State, l: Label, t: State, c: nat)
    requires RoleOf(l).ByAdder? && AdderNext(s, l) == Some(t) && c < |s.clients| && s.clients[c].Late?
    ensures c < |t.clients| && t.clients[c] == s.clients[c]
  {
    hide Signal;
    if l.AdderNotify? {
      SignalLeavesLate(s.clients, l.target, c);
    }
  }

  lemma {:induction false} LateStays(cfg: Config, c: nat, n: nat, s: State, t: State)
    requires NoLook(cfg, c, n, s, t) && c < |s.clients| && s.clients[c].Late?
    ensures c < |t.clients| && t.clients[c] == s.clients[c]
  {
    hide Next, LookOf;
    if n != 0 {
      var p: State, l: Label :| NoLook(cfg, c, n - 1, s, p) && !LookOf(l, c) && Step(cfg, p, l, t);
      LateStays(cfg, c, n - 1, s, p);
      OthersLeaveLate(cfg, p, l, t, c);
    }
  }

  /** A call whose deadline has passed while it slept answers at its next look, whatever that finds. */
  lemma ExpiredCallAnswers(cfg: Config, c: nat, s: State, t: State, n: nat, u: State, l: Label, v: State)
    requires Step(cfg, s, Expire(c), t) && NoLook(cfg, c, n, t, u) && LookOf(l, c) && Step(cfg, u, l, v)
    ensures l.GiveUp? && !ReplyOf(cfg, u, l).NoReply? && c < |v.clients| && v.clients[c].Ready?
  {
    hide NoLook, CallerNext, WatcherNext, AdderNext, ReplyOf;
    assert c < |t.clients| && t.clients[c].Late?;
    LateStays(cfg, c, n, t, u);
    LateGivesUp(cfg, u, l, v, c);
    LookAnswers(cfg, u, l, v, c, u.clients[c].call);
  }

  lemma LateGivesUp(cfg: Config, s: State, l: Label, t: State, c: nat)
    requires LookOf(l, c) && c < |s.clients| && s.clients[c].Late? && Step(cfg, s, l, t)
    ensures l.GiveUp? && |t.clients| == |s.clients|
  {
  }

  /** A call that finds a session at its first look answers by it, whatever would have woken it. */
  lemma FirstLookAnswers(cfg: Config, o: State, c: nat, call: Call, t: State, wakes: seq<Wake>)
    requires Step(cfg, o, Enter(c, call), t)
    ensures ReplyOf(cfg, o, Enter(c, call)).NoReply? <==> o.pool == []
    ensures o.pool != [] ==>
      var seen := Awaited(o.pool, wakes);
      ReplyOf(cfg, o, Enter(c, call)) == Answer(call, seen) && t.pool == Left(call, seen) && t.clients[c].Ready?
  {
  }

  lemma NotFoundOverNothing(call: Call, seen: seq<Entry>)
    ensures Answer(call, seen).NotFound? <==> seen == []
  {
  }

  // ------------------------------------------------------------------------------------------
  // Refills in the protocol

  /** What the adders of a refill have done with their sessions: has one listed its own, or dropped it? */
  datatype Deeds = Deeds(listed: bool, dropped: bool) {
    function With(l: Label): Deeds {
      Deeds(listed || l.AdderAppend?, dropped || l.AdderDrop?)
    }
  }

  /** `s` follows `o` after `n` steps of any threads, none of which ends the refill. */
  ghost predicate During(cfg: Config, o: State, n: nat, deeds: Deeds, s: State) {
    if n == 0 then s == o && deeds == Deeds(false, false)
    else exists p: State, l: Label, before: Deeds ::
      During(cfg, o, n - 1, before, p) && !l.Join? && Step(cfg, p, l, s) && deeds == before.With(l)
  }

  /** Some adder has a session that it has not yet reported. */
  ghost predicate Unreported(adders: seq<Adder>) {
    exists i :: 0 <= i < |adders| && (adders[i].Carrying? || adders[i].Appended?)
  }

  /** A refill that started in `o` with a number of attempts, some way on. */
  ghost predicate UnderWay(o: State, attempts: nat, deeds: Deeds, s: State) {
    && s.watcher.Refilling? && s.watcher.toSpawn + |s.adders| == attempts
    && s.strategy == o.strategy
    && o.created <= s.created && s.created - o.created + multiset(s.adders)[Connecting] <= |s.adders|
    && (o.created < s.created <==> s.added || Unreported(s.adders))
    && (s.added ==> deeds.listed || deeds.dropped)
    && (deeds.listed || deeds.dropped ==> s.added || Unreported(s.adders))
    && (Appended in s.adders ==> deeds.listed)
  }

  lemma OthersLeaveRefill(cfg: Config, s: State, l: Label, t: State)
    requires Step(cfg, s, l, t) && (RoleOf(l).ByCaller? || RoleOf(l).ByClient?)
    ensures t.adders == s.adders && t.added == s.added && t.created == s.created
    ensures t.watcher == s.watcher && t.strategy == s.strategy
  {
  }

  lemma WatcherGoesOn(cfg: Config, o: State, attempts: nat, deeds: Deeds, s: State, l: Label, t: State)
    requires UnderWay(o, attempts, deeds, s) && Step(cfg, s, l, t) && RoleOf(l).ByWatcher? && !l.Join?
    ensures UnderWay(o, attempts, deeds, t)
  {
    assert l.Spawn?;
    assert forall i :: 0 <= i < |s.adders| ==> t.adders[i] == s.adders[i];
  }

  /** An adder other than the one that moves keeps what it has unreported. */
  lemma UnreportedUpdate(adders: seq<Adder>, a: nat, pc: Adder)
    requires a < |adders|
    ensures pc.Carrying? || pc.Appended? ==> Unreported(adders[a := pc])
    ensures adders[a].Carrying? || adders[a].Appended? ==> Unreported(adders)
    ensures Unreported(adders[a := pc]) ==> Unreported(adders) || pc.Carrying? || pc.Appended?
    ensures Unreported(adders) && !adders[a].Carrying? && !adders[a].Appended? ==> Unreported(adders[a := pc])
    ensures Appended in adders[a := pc] ==> Appended in adders || pc.Appended?
    ensures adders[a].Appended? ==> Appended in adders
    ensures multiset(adders[a := pc])[Connecting]
         == multiset(adders)[Connecting] - (if adders[a].Connecting? then 1 else 0) + (if pc.Connecting? then 1 else 0)
  {
    var after := adders[a := pc];
    assert after[a] == pc;
    assert forall i :: 0 <= i < |adders| && i != a ==> after[i] == adders[i];
  }

  /** What an adder's step does to the refill. */
  lemma AdderReports(s: State, l: Label, t: State)
    requires RoleOf(l).ByAdder? && AdderNext(s, l) == Some(t)
    ensures l.a < |s.adders| && t.adders == s.adders[l.a := t.adders[l.a]]
    ensures t.watcher == s.watcher && t.strategy == s.strategy
    ensures t.created == s.created + (if l.Connected? then 1 else 0)
    ensures t.added == (s.added || l.AdderDrop? || l.AdderNotify?)
    ensures s.adders[l.a].Connecting? <==> l.Connected? || l.ConnectFailed?
    ensures s.adders[l.a].Carrying? <==> l.AdderAppend? || l.AdderDrop?
    ensures s.adders[l.a].Appended? <==> l.AdderNotify?
    ensures t.adders[l.a].Carrying? <==> l.Connected?
    ensures t.adders[l.a].Appended? <==> l.AdderAppend?
    ensures !t.adders[l.a].Connecting?
  {
    hide Signal;
  }

  lemma AdderGoesOn(cfg: Config, o: State, attempts: nat, deeds: Deeds, s: State, l: Label, t: State)
    requires UnderWay(o, attempts, deeds, s) && Step(cfg, s, l, t) && RoleOf(l).ByAdder?
    ensures UnderWay(o, attempts, deeds.With(l), t)
  {
    AdderReports(s, l, t);
    UnreportedUpdate(s.adders, l.a, t.adders[l.a]);
    hide Next, Unreported;
  }

  lemma {:induction false} RefillGoesOn(cfg: Config, o: State, attempts: nat, n: nat, deeds: Deeds, s: State)
    requires UnderWay(o, attempts, Deeds(false, false), o) && During(cfg, o, n, deeds, s)
    ensures UnderWay(o, attempts, deeds, s)
  {
    hide Next, UnderWay;
    if n != 0 {
      var p: State, l: Label, before: Deeds :|
        During(cfg, o, n - 1, before, p) && !l.Join? && Step(cfg, p, l, s) && deeds == before.With(l);
      RefillGoesOn(cfg, o, attempts, n - 1, before, p);
      match RoleOf(l)
      case ByWatcher => WatcherGoesOn(cfg, o, attempts, before, p, l, s);
      case ByAdder => AdderGoesOn(cfg, o, attempts, before, p, l, s);
      case _ =>
        OthersLeaveRefill(cfg, p, l, s);
        SameRefill(o, attempts, before, p, s);
    }
  }

  lemma SameRefill(o: State, attempts: nat, deeds: Deeds, s: State, t: State)
    requires UnderWay(o, attempts, deeds, s)
    requires t.adders == s.adders && t.added == s.added && t.created == s.created
    requires t.watcher == s.watcher && t.strategy == s.strategy
    ensures UnderWay(o, attempts, deeds, t)
  {
  }

  /**
    A whole refill, from the decision to the join, amid everything else that goes on: it starts exactly
    the attempts its strategy owes to the counted vacancy, ends only when all of them are done, and the
    strategy takes it for a success exactly if some attempt connected: if some adder listed its session,
    or dropped it because the pool's mutex was contended.
   */
  lemma RefillMakesItsAttempts(
    cfg: Config, p: State, o: State, n: nat, deeds: Deeds, s: State, f: Factor, t: State)
    requires cfg.Valid() && Reachable(cfg, p)
    requires p.watcher.Swept? && Step(cfg, p, Refill, o) && o.watcher.Refilling?
    requires During(cfg, o, n, deeds, s) && Step(cfg, s, Join(f), t)
    ensures |s.adders| == Attempts(p.strategy, p.watcher.vacant, p.now) && AllDone(s.adders)
    ensures s.created - o.created <= |s.adders| <= p.watcher.vacant
    ensures o.created < s.created <==> deeds.listed || deeds.dropped
    ensures t.strategy == Finish(p.strategy, o.created < s.created, s.now, f)
  {
    hide During, ReachedIn, Next, Finish;
    var k: nat :| ReachableHolding(cfg, k, p);
    var m: nat :| ReachedIn(cfg, k, m, p);
    ReachedIsSafe(cfg, k, m, p);
    RefillStarted(cfg, p, o);
    AttemptsFitVacancy(p.strategy, p.watcher.vacant, p.now);
    RefillGoesOn(cfg, o, Attempts(p.strategy, p.watcher.vacant, p.now), n, deeds, s);
    Joined(cfg, s, f, t);
    assert !Unreported(s.adders);
  }

  lemma Joined(cfg: Config, s: State, f: Factor, t: State)
    requires Step(cfg, s, Join(f), t)
    ensures s.watcher == Refilling(0) && AllDone(s.adders) && t.now == s.now
    ensures t.strategy == Finish(s.strategy, s.added, s.now, f)
  {
  }

  lemma RefillStarted(cfg: Config, p: State, o: State)
    requires WatcherInv(cfg, p) && Step(cfg, p, Refill, o) && o.watcher.Refilling?
    ensures p.watcher.Swept? && 0 < p.watcher.vacant <= cfg.size && o.strategy == p.strategy
    ensures UnderWay(o, Attempts(p.strategy, p.watcher.vacant, p.now), Deeds(false, false), o)
  {
  }

  // ------------------------------------------------------------------------------------------
  // Failures in a row

  /** `s` follows `o` after `n` steps of any threads; every refill that ended on the way failed. */
  ghost predicate FailingRun(cfg: Config, o: State, n: nat, failures: seq<Failure>, s: State) {
    if n == 0 then s == o && failures == []
    else exists p: State, l: Label ::
      && Step(cfg, p, l, s)
      && if l.Join?
         then
           && !p.added && failures != [] && failures[|failures| - 1] == Failure(p.now, l.f)
           && FailingRun(cfg, o, n - 1, failures[..|failures| - 1], p)
         else FailingRun(cfg, o, n - 1, failures, p)
  }

  ghost predicate AllValid(failures: seq<Failure>) {
    forall i :: 0 <= i < |failures| ==> failures[i].f.Valid()
  }

  lemma StrategyStays(cfg: Config, s: State, l: Label, t: State)
    requires Step(cfg, s, l, t) && !l.Join?
    ensures t.strategy == s.strategy && s.now <= t.now
  {
    hide CallerNext, ClientNext, AdderNext, Kept;
    match RoleOf(l)
    case ByCaller => CallerCounted(cfg, s, l, t);
    case ByClient => ClientCounted(cfg, s, l, t);
    case ByWatcher =>
    case ByAdder => AdderCounted(cfg, s, l, t);
  }

  /** Along such a run the strategy changes by the failures alone. */
  lemma {:induction false} RunFails(cfg: Config, o: State, n: nat, failures: seq<Failure>, s: State)
    requires FailingRun(cfg, o, n, failures, s)
    ensures AllValid(failures) && s.strategy == AfterFailures(o.strategy, failures)
    ensures failures != [] ==> failures[|failures| - 1].at <= s.now
  {
    hide Next, Finish;
    if n != 0 {
      var p: State, l: Label :|
        && Step(cfg, p, l, s)
        && if l.Join?
           then
             && !p.added && failures != [] && failures[|failures| - 1] == Failure(p.now, l.f)
             && FailingRun(cfg, o, n - 1, failures[..|failures| - 1], p)
           else FailingRun(cfg, o, n - 1, failures, p);
      if l.Join? {
        RunFails(cfg, o, n - 1, failures[..|failures| - 1], p);
        Joined(cfg, p, l.f, s);
      } else {
        RunFails(cfg, o, n - 1, failures, p);
        StrategyStays(cfg, p, l, s);
      }
    }
  }

  /** The delay and the wait that a number of failures from strategy `st` can leave behind. */
  ghost predicate BackedOff(st: Strategy, failures: seq<Failure>, r: Strategy)
    requires st.Conservative? && failures != []
  {
    && r.Conservative?
    && r.currentDelay <= 10_000 && r.currentDelay <= st.initialDelay * Pow(st.multiplier, |failures| - 1)
    && r.waitUntil == failures[|failures| - 1].at + r.currentDelay * 1_000_000
  }

  /**
    On every run of the pool, whatever else goes on: after k refills in a row have failed, counted from a
    state without delay, the delay is at most initial * multiplier^(k-1) and at most ten seconds for all
    random factors, and the wait ends exactly that long after the last of them failed.
   */
  lemma BackoffOverRuns(cfg: Config, o: State, n: nat, failures: seq<Failure>, s: State)
    requires cfg.Valid() && Reachable(cfg, o) && FailingRun(cfg, o, n, failures, s)
    requires o.strategy.Conservative? && o.strategy.currentDelay == 0 && failures != []
    ensures BackedOff(o.strategy, failures, s.strategy) && failures[|failures| - 1].at <= s.now
  {
    hide ReachedIn, FailingRun, Pow, Finish;
    var k: nat :| ReachableHolding(cfg, k, o);
    var m: nat :| ReachedIn(cfg, k, m, o);
    ReachedIsSafe(cfg, k, m, o);
    RunFails(cfg, o, n, failures, s);
    BackoffBound(o.strategy, failures);
  }

  // ------------------------------------------------------------------------------------------
  // A dropped session

  /** The state before a refill of one attempt: nothing listed yet, one to three places vacant. */
  ghost function Before(cfg: Config): State {
    State(0, [], seq(cfg.clients, _ => Client.Ready), Swept(cfg.size), [], false, cfg.strategy,
          multiset{}, [], 0, [], 0)
  }

  /** The only attempt of a refill connects, and the pool drops the session. */
  lemma OneAttemptDropped(cfg: Config, o: State) returns (s: State)
    requires o == Before(cfg).(watcher := Refilling(1))
    ensures During(cfg, o, 3, Deeds(false, true), s)
    ensures s.watcher == Refilling(0) && s.adders == [Done] && s.added && s.log == [] && s.strategy == cfg.strategy
  {
    var s1 := o.(watcher := Refilling(0), adders := o.adders + [Connecting]);
    var s2 := SetAdder(s1, 0, Carrying(0)).(created := 1);
    s := SetAdder(s2, 0, Done).(destroyed := s2.destroyed + [Entry(0, 0)], added := true);
    assert WatcherNext(cfg, o, Spawn) == Some(s1);
    assert AdderNext(s1, Connected(0)) == Some(s2) && AdderNext(s2, AdderDrop(0)) == Some(s);
    hide CallerNext, ClientNext, WatcherNext, AdderNext, SetAdder;
    assert Step(cfg, o, Spawn, s1) && Step(cfg, s1, Connected(0), s2) && Step(cfg, s2, AdderDrop(0), s);
    hide Step;
    assert During(cfg, o, 0, Deeds(false, false), o);
    assert During(cfg, o, 1, Deeds(false, false).With(Spawn), s1);
    assert During(cfg, o, 2, Deeds(false, false).With(Connected(0)), s2);
    assert During(cfg, o, 3, Deeds(false, false).With(AdderDrop(0)), s);
  }

  /**
    The documentation promises that `refill` returns true if it added a session. Here it counts as a
    success although no session was ever listed.
   */
  lemma DropCountsAsSuccess(cfg: Config, f: Factor) returns (p: State, o: State, s: State, t: State)
    requires cfg.Valid() && cfg.strategy.Conservative? && 1 <= cfg.size <= 3 && f.Valid()
    ensures Reachable(cfg, p) && Step(cfg, p, Refill, o) && During(cfg, o, 3, Deeds(false, true), s)
    ensures Step(cfg, s, Join(f), t) && t.log == [] && t.strategy == Finish(cfg.strategy, true, s.now, f)
  {
    hide CallerNext, ClientNext, AdderNext, Reachable, Finish, During;
    p, o := Before(cfg), Before(cfg).(watcher := Refilling(1));
    BeforeReachable(cfg);
    ParallelIsExact(cfg.size);
    s := OneAttemptDropped(cfg, o);
    t := WatcherNext(cfg, s, Join(f)).value;
  }

  lemma BeforeReachable(cfg: Config)
    ensures Reachable(cfg, Before(cfg))
  {
    var start := Before(cfg).(watcher := Idle);
    assert ReachedIn(cfg, 0, 0, start);
    hide ReachedIn;
    assert start.destroyed + start.pool[..0] == [];
    assert WatcherNext(cfg, start, Sweep) == Some(Before(cfg));
    Extend(cfg, 0, start, Sweep, Before(cfg));
  }
}
