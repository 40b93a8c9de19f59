/**
  The pool object itself: the session list with its in-place sweep and the calls that take, return and
  look for sessions; and the strategy objects. The sweep, `try_get_session` and `return_session` are each
  proved to perform their step of the pool protocol; the calls that wait are proved to answer by `Answer`
  over the lists their looks found, as the calls of the protocol do.
 */
module ConnectionPool {
  import opened Common
  import opened PoolStrategy
  import opened PoolProtocol
  import Safety = PoolSafety
  import opened PoolCalls

  datatype Error = NoError | TimedOut | NotFound | OperationAborted

  /** A `std::unique_ptr` to a stream, as `return_session` receives it. */
  datatype StreamPtr = Null | Stream(session: Session, open: bool)

  /** What a throwing overload does: return a value or throw an error code. */
  datatype Outcome<T> = Returned(value: T) | Thrown(error: Error)

  /** The protocol's reply for what `get_session` and `try_get_session` return. */
  function SessionReply(r: Option<Session>, ec: Error): Safety.Reply {
    if r.Some? then Safety.Got(r.value) else FailureReply(ec)
  }

  /** The protocol's reply for what `is_connected` returns. */
  function CheckReply(connected: bool, ec: Error): Safety.Reply {
    if connected then Safety.NonEmpty else FailureReply(ec)
  }

  function FailureReply(ec: Error): Safety.Reply {
    if ec.TimedOut? then Safety.TimedOut else if ec.NotFound? then Safety.NotFound else Safety.NoReply
  }

  lemma {:induction false} KeptConcat(left: seq<Entry>, right: seq<Entry>, now: Time, idle: Time)
    ensures Kept(left + right, now, idle) == Kept(left, now, idle) + Kept(right, now, idle)
  {
    if left == [] {
      assert left + right == right;
    } else {
      assert (left + right)[1..] == left[1..] + right;
      KeptConcat(left[1..], right, now, idle);
    }
  }

  class Pool {
    const cfg: Config
    var sessions: seq<Entry>

    constructor (cfg: Config)
      ensures this.cfg == cfg && sessions == []
    {
      this.cfg := cfg;
      sessions := [];
    }

    /**
      Erase idle sessions while iterating, counting the others. Exactly those stay that have been listed
      for less than the idle timeout, in their order.
     */
    method EraseIdle(now: Time) returns (current: nat)
      modifies this
      ensures sessions == Kept(old(sessions), now, cfg.idle) && current == |sessions|
      ensures forall e :: multiset(sessions)[e] == if now - e.stamp < cfg.idle then multiset(old(sessions))[e] else 0
      ensures forall e :: e in old(sessions) ==> (e in sessions <==> now - e.stamp < cfg.idle)
    {
      ghost var before := sessions;
      current := EraseOutdated(now);
      KeptEntries(before, now, sessions);
    }

    method EraseOutdated(now: Time) returns (current: nat)
      modifies this
      ensures sessions == Kept(old(sessions), now, cfg.idle) && current == |sessions|
    {
      hide Kept;
      ghost var before := sessions;
      ghost var done := 0;
      current := 0;
      NothingKept(now);
      assert before[..0] == [] && before[0..] == before;
      while current < |sessions|
        invariant done <= |before| && current <= |sessions|
        invariant sessions == Kept(before[..done], now, cfg.idle) + before[done..]
        invariant current == |Kept(before[..done], now, cfg.idle)|
        decreases |sessions| - current
      {
        NextKept(before, done, now);
        AtFront(Kept(before[..done], now, cfg.idle), before, done);
        if now - sessions[current].stamp >= cfg.idle {
          sessions := sessions[..current] + sessions[current + 1..];
        } else {
          current := current + 1;
        }
        done := done + 1;
      }
      assert before[..done] == before && before[done..] == [];
    }

    lemma KeptEntries(before: seq<Entry>, now: Time, after: seq<Entry>)
      requires after == Kept(before, now, cfg.idle)
      ensures forall e :: multiset(after)[e] == if now - e.stamp < cfg.idle then multiset(before)[e] else 0
      ensures forall e :: e in before ==> (e in after <==> now - e.stamp < cfg.idle)
    {
      hide Kept;
      forall e
        ensures multiset(after)[e] == if now - e.stamp < cfg.idle then multiset(before)[e] else 0
        ensures e in before ==> (e in after <==> now - e.stamp < cfg.idle)
      {
        KeptExactly(before, now, cfg.idle, e);
        assert e in before <==> e in multiset(before);
        assert e in after <==> e in multiset(after);
      }
    }

    /** Erasing the entry under the iterator, or stepping over it. */
    lemma AtFront(kept: seq<Entry>, before: seq<Entry>, done: nat)
      requires done < |before|
      ensures var list, k := kept + before[done..], |kept|;
        && list[k] == before[done]
        && list[..k] + list[k + 1..] == kept + before[done + 1..]
        && list == kept + [before[done]] + before[done + 1..]
    {
    }

    lemma NothingKept(now: Time)
      ensures Kept([], now, cfg.idle) == []
    {
    }

    lemma NextKept(before: seq<Entry>, done: nat, now: Time)
      requires done < |before|
      ensures Kept(before[..done + 1], now, cfg.idle)
           == Kept(before[..done], now, cfg.idle) + if Outdated(before[done], now, cfg.idle) then [] else [before[done]]
    {
      assert before[..done + 1] == before[..done] + [before[done]];
      KeptConcat(before[..done], [before[done]], now, cfg.idle);
    }

    /** The watcher's critical section: sweep the list, then count the vacant places. */
    method SweepIdle(now: Time) returns (vacant: nat)
      modifies this
      ensures sessions == Kept(old(sessions), now, cfg.idle)
      ensures forall e :: e in old(sessions) ==> (e in sessions <==> now - e.stamp < cfg.idle)
      ensures Sorted(old(sessions)) ==> sessions == old(sessions)[|old(sessions)| - |sessions|..]
      ensures if |sessions| < cfg.size then vacant + |sessions| == cfg.size else vacant == 0
      ensures forall s: State :: s.pool == old(sessions) && s.now == now && s.watcher == Idle ==>
        var t := WatcherNext(cfg, s, Sweep);
        t.Some? && t.value.pool == sessions && t.value.watcher == Swept(vacant)
    {
      hide Kept, Sorted, WatcherNext;
      ghost var before := sessions;
      var current := EraseIdle(now);
      vacant := if cfg.size > current then cfg.size - current else 0;
      if Sorted(before) {
        SweepRemovesPrefix(before, now, cfg.idle);
      }
      SweepStep(before, now, sessions, vacant);
    }

    lemma SweepStep(before: seq<Entry>, now: Time, after: seq<Entry>, vacant: nat)
      requires after == Kept(before, now, cfg.idle)
      requires if |after| < cfg.size then vacant + |after| == cfg.size else vacant == 0
      ensures forall s: State :: s.pool == before && s.now == now && s.watcher == Idle ==>
        var t := WatcherNext(cfg, s, Sweep);
        t.Some? && t.value.pool == after && t.value.watcher == Swept(vacant)
    {
      hide Kept;
    }

    /** What a call that looks for a session sees last. */
    ghost function Seen(locked: bool, wakes: seq<Wake>): seq<Entry>
      reads this
    {
      if locked then Awaited(sessions, wakes) else sessions
    }

    /**
      A look of the protocol that decides a waiting call: any of its looks if it found a session, and one
      after the deadline if it did not.
     */
    ghost predicate Deciding(s: State, l: Label, call: Call, failed: bool) {
      RoleOf(l).ByCaller? && MayLook(cfg, s, l) && CallOf(cfg, s, l) == call && (failed ==> !Sleeps(l))
    }

    /**
      Lock the list and wait for it to become non-empty. `locked` says whether the mutex was acquired
      in time and `wakes` what each return from the condition variable found.
     */
    method EnsureSession(locked: bool, wakes: seq<Wake>, ec0: Error) returns (ok: bool, ec: Error)
      modifies this
      ensures sessions == old(Seen(locked, wakes))
      ensures ok <==> locked && sessions != []
      ensures ec == if !locked then TimedOut else if sessions == [] then NotFound else ec0
      ensures CheckReply(ok, ec) == if locked then Answer(Call.IsConnected, sessions) else Safety.TimedOut
    {
      ec := ec0;
      if !locked {
        return false, TimedOut;
      }
      var i := 0;
      while sessions == [] && i < |wakes|
        invariant 0 <= i <= |wakes|
        invariant Awaited(sessions, wakes[i..]) == Awaited(old(sessions), wakes)
      {
        var late := wakes[i].late;
        sessions := wakes[i].list;
        i := i + 1;
        if late {
          break;
        }
      }
      ok := sessions != [];
      if !ok {
        ec := NotFound;
      }
    }

    /** `get_session`: the front of the list as it was at the final check, or null with an error. */
    method GetSession(locked: bool, wakes: seq<Wake>, ec0: Error) returns (r: Option<Session>, ec: Error)
      modifies this
      ensures var seen := old(Seen(locked, wakes));
        && (r.None? <==> !locked || seen == [])
        && (r.Some? ==> r.value == seen[0].session && sessions == seen[1..] && ec == ec0)
        && (r.None? ==> sessions == seen && ec == if locked then NotFound else TimedOut)
      ensures var seen := old(Seen(locked, wakes));
        if locked then SessionReply(r, ec) == Answer(Call.GetSession, seen) && sessions == Left(Call.GetSession, seen)
        else SessionReply(r, ec) == Safety.TimedOut && sessions == old(sessions)
      ensures locked ==> forall s: State, l: Label ::
        Deciding(s, l, Call.GetSession, r.None?) && s.pool == old(Seen(locked, wakes)) ==>
        var t := CallerNext(cfg, s, l);
        && t.Some? && t.value.pool == sessions && Safety.ReplyOf(cfg, s, l) == SessionReply(r, ec)
        && t.value.held == s.held + if r.Some? then multiset{r.value} else multiset{}
      ensures !locked ==> forall s: State, c: nat :: IsReady(s, c) ==>
        Next(cfg, s, LockTimeout(c)) == Some(s) && Safety.ReplyOf(cfg, s, LockTimeout(c)) == SessionReply(r, ec)
    {
      var ok;
      ok, ec := EnsureSession(locked, wakes, ec0);
      if !ok {
        return None, ec;
      }
      r := Some(sessions[0].session);
      sessions := sessions[1..];
    }

    /** `try_get_session`: the same without waiting. */
    method TryGetSession(locked: bool, ec0: Error) returns (r: Option<Session>, ec: Error)
      modifies this
      ensures r.None? <==> !locked || old(sessions) == []
      ensures r.Some? ==> r.value == old(sessions)[0].session && sessions == old(sessions)[1..] && ec == ec0
      ensures r.None? ==> sessions == old(sessions) && ec == if locked then NotFound else TimedOut
      ensures forall s: State, c: nat :: s.pool == old(sessions) && IsReady(s, c) ==>
        var l := if locked then TryGet(c) else LockTimeout(c);
        var t := Next(cfg, s, l);
        && t.Some? && t.value.pool == sessions && Safety.ReplyOf(cfg, s, l) == SessionReply(r, ec)
        && t.value.held == s.held + if r.Some? then multiset{r.value} else multiset{}
    {
      if !locked {
        return None, TimedOut;
      }
      if sessions == [] {
        return None, NotFound;
      }
      r, ec := Some(sessions[0].session), ec0;
      sessions := sessions[1..];
    }

    /** The throwing overload: its second throw, a null session without an error, is unreachable. */
    method GetSessionOrThrow(locked: bool, wakes: seq<Wake>) returns (o: Outcome<Session>)
      modifies this
      ensures var seen := old(Seen(locked, wakes));
        if locked && seen != [] then o == Returned(seen[0].session) && sessions == seen[1..]
        else o == Thrown(if locked then NotFound else TimedOut) && sessions == seen
    {
      var session, ec := GetSession(locked, wakes, NoError);
      if ec != NoError {
        return Thrown(ec);
      }
      if session.None? {
        return Thrown(OperationAborted);
      }
      o := Returned(session.value);
    }

    /** `return_session`: append an open session if the mutex is free in time, otherwise drop it. */
    method ReturnSession(ptr: StreamPtr, locked: bool, now: Time) returns (notify: bool)
      modifies this
      ensures notify <==> ptr.Stream? && ptr.open && locked
      ensures sessions == if notify then old(sessions) + [Entry(now, ptr.session)] else old(sessions)
      ensures Sorted(old(sessions)) && (forall e :: e in old(sessions) ==> e.stamp <= now) ==> Sorted(sessions)
      ensures notify ==> forall s: State, c: nat ::
        s.pool == old(sessions) && s.now == now && IsReady(s, c) && ptr.session in s.held ==>
        var t := ClientNext(s, Return(c, ptr.session));
        t.Some? && t.value.pool == sessions && t.value.clients[c] == MustNotify
      ensures !notify && ptr.Stream? ==> forall s: State :: s.pool == old(sessions) && ptr.session in s.held ==>
        var t := ClientNext(s, Drop(ptr.session));
        t.Some? && t.value.pool == sessions && t.value.held == s.held - multiset{ptr.session}
      ensures ptr.Stream? ==> forall s: State, a: nat ::
        s.pool == old(sessions) && s.now == now && a < |s.adders| && s.adders[a] == Carrying(ptr.session) ==>
        var t := AdderNext(s, if notify then AdderAppend(a) else AdderDrop(a));
        t.Some? && t.value.pool == sessions && t.value.adders == s.adders[a := if notify then Appended else Done]
    {
      if ptr.Null? || !ptr.open {
        return false;
      }
      if !locked {
        return false;
      }
      sessions := sessions + [Entry(now, ptr.session)];
      notify := true;
    }

    method IsConnected(locked: bool, wakes: seq<Wake>, ec0: Error) returns (connected: bool, ec: Error)
      modifies this
      ensures sessions == old(Seen(locked, wakes))
      ensures connected <==> locked && sessions != []
      ensures ec == if !locked then TimedOut else if sessions == [] then NotFound else ec0
      ensures CheckReply(connected, ec) == if locked then Answer(Call.IsConnected, sessions) else Safety.TimedOut
      ensures locked ==> forall s: State, l: Label ::
        Deciding(s, l, Call.IsConnected, !connected) && s.pool == sessions ==>
        var t := CallerNext(cfg, s, l);
        && t.Some? && t.value.pool == sessions && t.value.held == s.held
        && Safety.ReplyOf(cfg, s, l) == CheckReply(connected, ec)
      ensures !locked ==> forall s: State, c: nat :: IsReady(s, c) ==>
        Next(cfg, s, LockTimeout(c)) == Some(s) && Safety.ReplyOf(cfg, s, LockTimeout(c)) == CheckReply(connected, ec)
    {
      connected, ec := EnsureSession(locked, wakes, ec0);
    }

    /** The throwing overload is documented to return false over an empty list; it never returns false. */
    method IsConnectedOrThrow(locked: bool, wakes: seq<Wake>) returns (o: Outcome<bool>)
      modifies this
      ensures sessions == old(Seen(locked, wakes))
      ensures o == if !locked then Thrown(TimedOut) else if sessions == [] then Thrown(NotFound) else Returned(true)
    {
      var connected, ec := IsConnected(locked, wakes, NoError);
      if ec != NoError {
        return Thrown(ec);
      }
      o := Returned(connected);
    }
  }

  // ------------------------------------------------------------------------------------------
  // Strategy objects

  /**
    How one attempt of a refill ends: no connection, a session the pool has listed, or a session the pool
    has dropped because its mutex was contended.
   */
  datatype Attempt = Failed | Listed | Dropped

  /** Some attempt obtained a session and handed it to the pool. */
  ghost predicate SomeConnects(outcome: nat -> Attempt, attempts: nat) {
    exists i: nat :: i < attempts && outcome(i) != Failed
  }

  /** Some attempt added a session to the pool. */
  ghost predicate SomeListed(outcome: nat -> Attempt, attempts: nat) {
    exists i: nat :: i < attempts && outcome(i).Listed?
  }

  /** Every attempt added a session to the pool. */
  ghost predicate AllListed(outcome: nat -> Attempt, attempts: nat) {
    forall i: nat :: i < attempts ==> outcome(i).Listed?
  }

  /** Whether some session was handed over says whether one was added, unless all of them were dropped. */
  lemma SaysListedIff(outcome: nat -> Attempt, attempts: nat)
    ensures (SomeConnects(outcome, attempts) <==> SomeListed(outcome, attempts)) <==>
      (forall i: nat :: i < attempts ==> !outcome(i).Dropped?) || SomeListed(outcome, attempts)
  {
  }

  lemma NoAttempt(outcome: nat -> Attempt)
    ensures !SomeConnects(outcome, 0) && !SomeListed(outcome, 0)
  {
  }

  /**
    Greedy refill: one thread per vacant place, each of them joined, with what it came to, before the
    call returns. The result is documented to say whether all sessions were added: that it does if and
    only if some place was vacant and all of them were.
   */
  method GreedyRefill(vacant: nat, outcome: nat -> Attempt) returns (needMore: bool, joined: seq<Attempt>)
    ensures |joined| == vacant == Attempts(Greedy, vacant, 0)
    ensures forall i :: 0 <= i < |joined| ==> joined[i] == outcome(i)
    ensures needMore <==> 0 < vacant
    ensures (needMore <==> AllListed(outcome, vacant)) <==> 0 < vacant && Failed !in joined && Dropped !in joined
  {
    var adders: seq<nat> := [];
    for i := 0 to vacant
      invariant |adders| == i && forall j :: 0 <= j < i ==> adders[j] == j
    {
      adders := adders + [i];
    }
    joined := [];
    for i := 0 to |adders|
      invariant |joined| == i && forall j :: 0 <= j < i ==> joined[j] == outcome(j)
    {
      joined := joined + [outcome(adders[i])];
    }
    assert forall i :: 0 <= i < vacant ==> joined[i] in joined;
    needMore := vacant > 0;
  }

  class ConservativeStrategy {
    const initialDelay: nat
    const multiplier: nat
    var currentDelay: nat
    var waitUntil: Time

    ghost function Model(): Strategy
      reads this
    {
      Conservative(initialDelay, multiplier, currentDelay, waitUntil)
    }

    constructor (firstDelay: nat, multiplier: nat)
      ensures Model() == Conservative(firstDelay, multiplier, 0, 0)
    {
      initialDelay := firstDelay;
      this.multiplier := multiplier;
      currentDelay := 0;
      waitUntil := 0;
    }

    /** The constructor throws on a multiplier below one; a thrown error is modelled by null. */
    static method Create(firstDelay: nat, multiplier: nat) returns (st: ConservativeStrategy?)
      requires firstDelay < WORD && multiplier < HALF_WORD
      ensures st == null <==> multiplier < 1
      ensures st != null ==> fresh(st) && st.Model() == Conservative(firstDelay, multiplier, 0, 0)
      ensures st != null ==> st.Model().Valid() && !st.Model().Waits(0)
    {
      if multiplier < 1 {
        return null;
      }
      st := new ConservativeStrategy(firstDelay, multiplier);
    }

    /** After a failure: the delay reaches d milliseconds exactly if the scaled full delay and the cap do. */
    method BackOff(later: Time, f: Factor)
      requires Model().Valid() && f.Valid()
      modifies this
      ensures Model() == Finish(old(Model()), false, later, f) && Model().Valid()
      ensures var full := if old(currentDelay) == 0 then initialDelay else old(currentDelay) * multiplier;
        forall d: nat :: d <= currentDelay <==> d <= 10_000 && d * f.den <= full * f.num
      ensures waitUntil == later + currentDelay * 1_000_000
    {
      ghost var before := Model();
      currentDelay := Wrap(if currentDelay == 0 then initialDelay else currentDelay * multiplier);
      currentDelay := f.Scale(currentDelay);
      currentDelay := Min(MAX_BACKOFF_MS, currentDelay);
      waitUntil := later + currentDelay * TICKS_PER_MS;
      assert Model() == Finish(before, false, later, f);
      hide Finish, Factor.Scale, Wrap;
      forall d: nat
        ensures var full := if before.currentDelay == 0 then initialDelay else before.currentDelay * multiplier;
          d <= currentDelay <==> d <= 10_000 && d * f.den <= full * f.num
      {
        DelayReaches(before, later, f, d);
      }
    }

    /** The calling thread and the extra adder threads make their attempts; all are joined. */
    method MakeAttempts(vacant: nat, outcome: nat -> Attempt) returns (isAdded: bool, attempts: nat)
      ensures attempts == 1 + if currentDelay == 0 then Parallel(vacant) else 0
      ensures isAdded <==> SomeConnects(outcome, attempts)
    {
      isAdded := false;
      var adders: seq<nat> := [];
      var parallel := Wrap(Wrap(vacant + 2) / 3 - 1);
      if currentDelay == 0 && parallel > 0 {
        while |adders| < parallel
          invariant |adders| <= parallel && forall j :: 0 <= j < |adders| ==> adders[j] == j
        {
          adders := adders + [|adders|];
        }
      }
      if outcome(|adders|) != Failed {
        isAdded := true;
      }
      for i := 0 to |adders|
        invariant isAdded <==> outcome(|adders|) != Failed || SomeConnects(outcome, i)
      {
        if outcome(adders[i]) != Failed {
          isAdded := true;
        }
      }
      attempts := |adders| + 1;
    }

    /**
      One refill. Extra adder threads run only without a delay; the calling thread always makes one
      attempt; all threads are joined before the outcome is judged.
     */
    method Refill(vacant: nat, now: Time, later: Time, outcome: nat -> Attempt, f: Factor)
      returns (needMore: bool, attempts: nat)
      requires Model().Valid() && f.Valid()
      modifies this
      ensures attempts == Attempts(old(Model()), vacant, now)
      ensures needMore <==> SomeConnects(outcome, attempts)
      ensures (needMore <==> SomeListed(outcome, attempts)) <==>
        (forall i: nat :: i < attempts ==> !outcome(i).Dropped?) || SomeListed(outcome, attempts)
      ensures old(Model()).Waits(now) ==> Model() == old(Model())
      ensures !old(Model()).Waits(now) ==> Model() == Finish(old(Model()), needMore, later, f)
      ensures Model().Valid()
      ensures now < old(waitUntil) ==>
        !needMore && attempts == 0 && currentDelay == old(currentDelay) && waitUntil == old(waitUntil)
      ensures old(waitUntil) <= now && old(currentDelay) != 0 ==> attempts == 1
      ensures old(waitUntil) <= now && old(currentDelay) == 0 && 0 < vacant && vacant + 2 < WORD ==>
        vacant <= 3 * attempts < vacant + 3
      ensures needMore ==> currentDelay == 0 && waitUntil == old(waitUntil)
      ensures old(waitUntil) <= now && !needMore ==>
        var full := if old(currentDelay) == 0 then initialDelay else old(currentDelay) * multiplier;
        && (forall d: nat :: d <= currentDelay <==> d <= 10_000 && d * f.den <= full * f.num)
        && waitUntil == later + currentDelay * 1_000_000
    {
      hide Finish, Factor.Scale, SomeConnects, SomeListed, Parallel, NextDelay;
      if 0 < vacant && vacant + 2 < WORD {
        ParallelIsExact(vacant);
      }
      if now < waitUntil {
        NoAttempt(outcome);
        return false, 0;
      }
      var isAdded;
      isAdded, attempts := MakeAttempts(vacant, outcome);
      SaysListedIff(outcome, attempts);
      if isAdded {
        AfterSuccess(Model(), later, f);
        currentDelay := 0;
        return true, attempts;
      }
      BackOff(later, f);
      needMore := false;
    }
  }
}
