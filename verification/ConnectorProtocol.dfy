/**
  The connector and its background resolver as a labelled transition system: the resolver thread and
  any number of concurrent `new_session` calls share two flags, the endpoint list and an error cell.
  A step is one critical section; the mutex of `resolve_needed_` is held by the resolver over several.
 */
module ConnectorProtocol {
  import opened Common

  type Endpoint = nat

  const TIMED_OUT: Code := 110

  /** The result of one DNS resolve. A successful resolve yields at least one endpoint. */
  datatype Resolution = Resolved(endpoints: seq<Endpoint>) | Failed(code: Code) {
    ghost predicate Valid() {
      match this
      case Resolved(endpoints) => endpoints != []
      case Failed(code) => code != 0
    }

    function Error(): Code {
      if Failed? then code else 0
    }
  }

  /**
    The resolver thread, in the order of its loop body. `asked` is the number of requests that had been
    made when the resolve started. It owns the mutex of `resolve_needed_` in all but two places.
   */
  datatype Resolver =
    | Waiting
    | Resolving(asked: nat)
    | Answered(asked: nat, result: Resolution)
    | Reported(asked: nat, result: Resolution)
    | Cleared(asked: nat, endpoints: seq<Endpoint>)
    | Published
    | Announcing
  {
    predicate Locks() {
      !Waiting? && !Announcing?
    }
  }

  /**
    A call of `new_session`: waiting for the first resolve, past the wait, about to connect to the first
    of its shuffled endpoints, failed with an error code, about to ask for another resolve, returned.
    `ec0` is what the caller's error code was; `tried` are the endpoints it tried to connect to; `passed`
    says whether a returned call got past its wait for the first resolve.
   */
  datatype Caller =
    | Blocked(ec0: Code)
    | Passed(ec0: Code)
    | Trying(ec0: Code, order: seq<Endpoint>)
    | Broken(ec0: Code, ec: Code, tried: seq<Endpoint>)
    | Asking(ec0: Code, ec: Code, tried: seq<Endpoint>)
    | Done(ec0: Code, session: Option<Endpoint>, ec: Code, tried: seq<Endpoint>, passed: bool)

  /**
    `requests` counts the requests to resolve (the constructor makes the first); `served` is the number
    of them made before the latest successful resolve started, `basis` the same for the resolve that
    produced the current endpoints; `published` are all endpoint lists ever published, oldest first.
   */
  datatype State = State(
    needed: bool,
    done: bool,
    endpoints: seq<Endpoint>,
    error: Code,
    resolver: Resolver,
    callers: seq<Caller>,
    requests: nat,
    served: nat,
    basis: nat,
    published: seq<seq<Endpoint>>)

  datatype Label =
    | Lock
    | Resolve(result: Resolution)
    | Report
    | Retry
    | Clear
    | Publish
    | Unlock
    | Announce
    | Call(ec0: Code)
    | GiveUp(i: nat)
    | Pass(i: nat)
    | Snapshot(i: nat, order: seq<Endpoint>)
    | ConnectOk(i: nat)
    | ConnectError(i: nat, code: Code)
    | NoEndpoint(i: nat)
    | Settle(i: nat)
    | Ask(i: nat)
    | Retire

  /** What the environment owes: results of resolves and codes of thrown errors are well-formed. */
  ghost predicate Fair(l: Label) {
    && (l.Resolve? ==> l.result.Valid())
    && (l.ConnectError? ==> l.code != 0)
  }

  predicate ByResolver(l: Label) {
    l.Lock? || l.Resolve? || l.Report? || l.Retry? || l.Clear? || l.Publish? || l.Unlock? || l.Announce?
  }

  function ResolverNext(s: State, l: Label): Option<State>
    requires ByResolver(l)
  {
    var r := s.resolver;
    match l
    case Lock => if r.Waiting? && s.needed then Some(s.(resolver := Resolving(s.requests))) else None
    case Resolve(result) => if r.Resolving? then Some(s.(resolver := Answered(r.asked, result))) else None
    case Report =>
      if r.Answered? then Some(s.(error := r.result.Error(), resolver := Reported(r.asked, r.result))) else None
    case Retry => if r.Reported? && r.result.Failed? then Some(s.(resolver := Waiting)) else None
    case Clear =>
      if r.Reported? && r.result.Resolved?
      then Some(s.(needed := false, served := r.asked, resolver := Cleared(r.asked, r.result.endpoints)))
      else None
    case Publish =>
      if r.Cleared?
      then Some(s.(endpoints := r.endpoints, published := s.published + [r.endpoints], basis := r.asked,
                   resolver := Published))
      else None
    case Unlock => if r.Published? then Some(s.(resolver := Announcing)) else None
    case Announce => if r.Announcing? then Some(s.(done := true, resolver := Waiting)) else None
  }

  predicate AllDone(callers: seq<Caller>) {
    forall i :: 0 <= i < |callers| ==> callers[i].Done?
  }

  /** A step of call `c`: where the call is afterwards. */
  function CallMove(s: State, l: Label, c: Caller): Option<Caller>
    requires !ByResolver(l) && !l.Call? && !l.Retire?
  {
    match l
    case GiveUp(_) =>
      if c.Blocked? then Some(Done(c.ec0, None, if s.error != 0 then s.error else TIMED_OUT, [], false)) else None
    case Pass(_) => if c.Blocked? && s.done then Some(Passed(c.ec0)) else None
    case Snapshot(_, order) =>
      if c.Passed? && multiset(order) == multiset(s.endpoints) then Some(Trying(c.ec0, order)) else None
    case ConnectOk(_) =>
      if c.Trying? && c.order != [] then Some(Done(c.ec0, Some(c.order[0]), c.ec0, [c.order[0]], true)) else None
    case ConnectError(_, code) =>
      if c.Trying? && c.order != [] then Some(Broken(c.ec0, code, [c.order[0]])) else None
    case NoEndpoint(_) => if c.Trying? && c.order == [] then Some(Broken(c.ec0, c.ec0, [])) else None
    case Settle(_) =>
      if c.Broken? then Some(Asking(c.ec0, if c.ec == 0 then s.error else c.ec, c.tried)) else None
    case Ask(_) =>
      if c.Asking? && !s.resolver.Locks() then Some(Done(c.ec0, None, c.ec, c.tried, true)) else None
  }

  function CallerNext(s: State, l: Label): Option<State>
    requires !ByResolver(l)
  {
    if l.Call? then Some(s.(callers := s.callers + [Blocked(l.ec0)]))
    else if l.Retire? then (if AllDone(s.callers) then Some(s.(callers := [])) else None)
    else if l.i >= |s.callers| then None
    else
      var moved := CallMove(s, l, s.callers[l.i]);
      if moved.None? then None
      else
        var t := s.(callers := s.callers[l.i := moved.value]);
        if l.Ask? then Some(t.(needed := true, requests := s.requests + 1)) else Some(t)
  }

  function Next(s: State, l: Label): Option<State> {
    if ByResolver(l) then ResolverNext(s, l) else CallerNext(s, l)
  }

  ghost predicate Step(s: State, l: Label, t: State) {
    Fair(l) && Next(s, l) == Some(t)
  }

  ghost predicate Init(s: State) {
    s == State(true, false, [], 0, Waiting, [], 1, 0, 0, [])
  }

  ghost predicate ReachedIn(n: nat, s: State) {
    if n == 0 then Init(s) else exists p, l :: ReachedIn(n - 1, p) && Step(p, l, s)
  }

  ghost predicate Reachable(s: State) {
    exists n: nat :: ReachedIn(n, s)
  }

  lemma Extend(s: State, l: Label, t: State)
    requires Reachable(s) && Step(s, l, t)
    ensures Reachable(t)
  {
    hide Next;
    var n: nat :| ReachedIn(n, s);
    assert ReachedIn(n + 1 - 1, s) && Step(s, l, t);
    assert ReachedIn(n + 1, t);
  }

  // ------------------------------------------------------------------------------------------
  // The invariant

  ghost predicate ResolverInv(s: State) {
    && (s.needed <==> s.served < s.requests)
    && s.served <= s.requests && 1 <= s.requests
    && (0 < s.basis ==> s.endpoints != [])
    && (match s.resolver
        case Waiting => s.basis == s.served
        case Resolving(asked) => s.needed && asked == s.requests && s.basis == s.served
        case Answered(asked, result) => s.needed && asked == s.requests && result.Valid() && s.basis == s.served
        case Reported(asked, result) =>
          && s.needed && asked == s.requests && result.Valid() && s.basis == s.served
          && s.error == if result.Failed? then result.code else 0
        case Cleared(asked, endpoints) => !s.needed && asked == s.requests == s.served && endpoints != []
        case Published => s.endpoints != [] && !s.needed && s.basis == s.served
        case Announcing => s.endpoints != [] && s.basis == s.served)
    && (!s.needed ==> s.error == 0)
    && (s.done ==> s.endpoints != [])
    && (!s.done ==> s.needed || s.resolver.Cleared? || s.resolver.Published? || s.resolver.Announcing?)
    && (s.endpoints != [] ==> s.published != [] && s.endpoints == s.published[|s.published| - 1])
    && (forall g :: 0 <= g < |s.published| ==> s.published[g] != [])
  }

  /** `order` is a permutation of one published endpoint list. */
  ghost predicate FromOneResolve(published: seq<seq<Endpoint>>, order: seq<Endpoint>) {
    exists g :: 0 <= g < |published| && multiset(order) == multiset(published[g])
  }

  /** `e` belongs to a list that some successful resolve published. */
  ghost predicate WasResolved(published: seq<seq<Endpoint>>, e: Endpoint) {
    exists g :: 0 <= g < |published| && e in published[g]
  }

  ghost predicate CallerInv(done: bool, published: seq<seq<Endpoint>>, c: Caller) {
    match c
    case Blocked(_) => true
    case Passed(_) => done
    case Trying(_, order) => done && order != [] && FromOneResolve(published, order)
    case Broken(_, ec, tried) => ec != 0 && |tried| == 1 && WasResolved(published, tried[0])
    case Asking(_, ec, tried) => ec != 0 && |tried| == 1 && WasResolved(published, tried[0])
    case Done(_, None, ec, tried, passed) =>
      ec != 0 && (if passed then |tried| == 1 && WasResolved(published, tried[0]) else tried == [])
    case Done(ec0, Some(e), ec, tried, passed) => passed && ec == ec0 && tried == [e] && WasResolved(published, e)
  }

  ghost predicate Inv(s: State) {
    && ResolverInv(s)
    && forall i :: 0 <= i < |s.callers| ==> CallerInv(s.done, s.published, s.callers[i])
  }

  lemma Monotone(s: State, t: State, c: Caller)
    requires CallerInv(s.done, s.published, c)
    requires (s.done ==> t.done) && s.published <= t.published
    ensures CallerInv(t.done, t.published, c)
  {
  }

  lemma ResolverKeeps(s: State, l: Label, t: State)
    requires Inv(s) && Fair(l) && ByResolver(l) && ResolverNext(s, l) == Some(t)
    ensures Inv(t)
    ensures s.published <= t.published && (s.done ==> t.done) && s.served <= t.served
    ensures t.callers == s.callers && t.requests == s.requests
  {
    forall i | 0 <= i < |t.callers|
      ensures CallerInv(t.done, t.published, t.callers[i])
    {
      Monotone(s, t, s.callers[i]);
    }
  }

  /** A permutation of a published list is non-empty and starts with one of its endpoints. */
  lemma FirstWasResolved(published: seq<seq<Endpoint>>, order: seq<Endpoint>)
    requires FromOneResolve(published, order) && order != []
    ensures WasResolved(published, order[0])
  {
    var g :| 0 <= g < |published| && multiset(order) == multiset(published[g]);
    assert order[0] in multiset(order);
    assert order[0] in published[g];
  }

  lemma SnapshotNonEmpty(s: State, order: seq<Endpoint>)
    requires ResolverInv(s) && s.done && multiset(order) == multiset(s.endpoints)
    ensures order != [] && FromOneResolve(s.published, order)
  {
  }

  lemma MoveKeeps(s: State, l: Label, c: Caller, c': Caller)
    requires ResolverInv(s) && CallerInv(s.done, s.published, c) && Fair(l)
    requires !ByResolver(l) && !l.Call? && !l.Retire? && CallMove(s, l, c) == Some(c')
    ensures CallerInv(s.done, s.published, c')
    ensures l.Ask? ==> !s.resolver.Locks()
  {
    if l.Snapshot? {
      SnapshotNonEmpty(s, l.order);
    }
    if l.ConnectOk? || l.ConnectError? {
      FirstWasResolved(s.published, c.order);
    }
  }

  lemma NewCallKeeps(s: State, ec0: Code)
    ensures CallerInv(s.done, s.published, Blocked(ec0))
  {
  }

  lemma CallerKeeps(s: State, l: Label, t: State)
    requires Inv(s) && Fair(l) && !ByResolver(l) && CallerNext(s, l) == Some(t)
    ensures Inv(t)
    ensures s.published == t.published && s.done == t.done && s.served == t.served && s.requests <= t.requests
  {
    hide CallMove, CallerInv;
    if l.Call? {
      NewCallKeeps(s, l.ec0);
    } else if !l.Retire? {
      MoveKeeps(s, l, s.callers[l.i], t.callers[l.i]);
    }
  }

  lemma {:induction false} ReachedInv(n: nat, s: State)
    requires ReachedIn(n, s)
    ensures Inv(s)
  {
    hide ResolverNext, CallerNext;
    if n != 0 {
      var p, l :| ReachedIn(n - 1, p) && Step(p, l, s);
      ReachedInv(n - 1, p);
      if ByResolver(l) {
        ResolverKeeps(p, l, s);
      } else {
        CallerKeeps(p, l, s);
      }
    }
  }

  // ------------------------------------------------------------------------------------------
  // Theorems

  /** `t` can follow `s` after any number of steps. */
  ghost predicate LeadsTo(n: nat, s: State, t: State) {
    if n == 0 then s == t else exists p, l :: LeadsTo(n - 1, s, p) && Step(p, l, t)
  }

  lemma {:induction false} CountsGrow(n: nat, s: State, t: State)
    requires Inv(s) && LeadsTo(n, s, t)
    ensures Inv(t) && s.requests <= t.requests && s.served <= t.served && s.published <= t.published
  {
    hide ResolverNext, CallerNext;
    if n != 0 {
      var p, l :| LeadsTo(n - 1, s, p) && Step(p, l, t);
      CountsGrow(n - 1, s, p);
      if ByResolver(l) {
        ResolverKeeps(p, l, t);
      } else {
        CallerKeeps(p, l, t);
      }
    }
  }

  /**
    No request to resolve is lost. From the state in which the r-th request has been made, `needed`
    stays set in every later state until a resolve that started after that request has succeeded; and
    as soon as the mutex is free with `needed` cleared, the endpoints come from such a resolve.
   */
  lemma NoRequestIsLost(s: State, n: nat, t: State)
    requires Reachable(s) && LeadsTo(n, s, t)
    ensures t.served < s.requests ==> t.needed
    ensures !t.needed && !t.resolver.Locks() ==> s.requests <= t.basis && t.endpoints != []
    ensures !t.needed ==> s.requests <= t.requests == t.served && t.error == 0
  {
    hide LeadsTo, Next;
    var m: nat :| ReachedIn(m, s);
    ReachedInv(m, s);
    CountsGrow(n, s, t);
  }

  /**
    A `new_session` call that has returned: null always comes with an error; a session comes with the
    caller's own error code untouched, so it reads as success exactly when the caller passed none in;
    past its wait exactly one endpoint was tried, otherwise none, and it came from a list some successful
    resolve published.
   */
  lemma NewSessionIsHonest(s: State, i: nat)
    requires Reachable(s) && i < |s.callers| && s.callers[i].Done?
    ensures var c := s.callers[i];
      && (c.session.None? ==> c.ec != 0)
      && (c.session.Some? ==> c.ec == c.ec0)
      && |c.tried| == (if c.passed then 1 else 0)
      && (forall e :: e in c.tried ==> WasResolved(s.published, e))
      && (c.session.Some? ==> c.tried == [c.session.value])
  {
    hide ReachedIn;
    var m: nat :| ReachedIn(m, s);
    ReachedInv(m, s);
  }

  /**
    The documentation promises that a call that returns null has triggered the resolver. So it has if and
    only if it got past its wait: giving up the wait asks for nothing, and reports the last resolve's error
    or else a timeout.
   */
  lemma NullAsksIffPassed(s: State, i: nat, l: Label, t: State)
    requires i < |s.callers| && !s.callers[i].Done? && Step(s, l, t)
    requires i < |t.callers| && t.callers[i].Done? && t.callers[i].session.None?
    ensures t.requests == s.requests + if t.callers[i].passed then 1 else 0
    ensures t.callers[i].passed ==> t.needed
    ensures !t.callers[i].passed ==> t.needed == s.needed && t.callers[i].tried == []
    ensures !t.callers[i].passed ==> t.callers[i].ec == if s.error != 0 then s.error else TIMED_OUT
    ensures t.callers[i].passed ==> t.callers[i].ec == s.callers[i].ec
    ensures t.callers[i].passed <==> s.callers[i].Asking?
  {
  }

  /** Once endpoints are announced they never run out, and they are the latest list published. */
  lemma AnnouncedMeansResolved(s: State)
    requires Reachable(s) && s.done
    ensures s.endpoints != [] && s.published != [] && s.endpoints == s.published[|s.published| - 1]
  {
    hide ReachedIn;
    var m: nat :| ReachedIn(m, s);
    ReachedInv(m, s);
  }

  /** The throwing overload starts without an error: it returns a session or throws the error code. */
  datatype Thrown = Session(endpoint: Endpoint) | Threw(code: Code) | ThrewAborted

  function Throwing(session: Option<Endpoint>, ec: Code): Thrown {
    if ec != 0 then Threw(ec)
    else if session.None? then ThrewAborted
    else Session(session.value)
  }

  /** A call that started without an error never reaches the throw for "null without an error". */
  lemma SecondThrowUnreachable(s: State, i: nat)
    requires Reachable(s) && i < |s.callers| && s.callers[i].Done?
    ensures var c := s.callers[i];
      && !Throwing(c.session, c.ec).ThrewAborted?
      && (c.ec != 0 ==> Throwing(c.session, c.ec) == Threw(c.ec))
      && (c.ec == 0 ==> c.session.Some? && Throwing(c.session, c.ec) == Session(c.session.value))
      && (c.ec0 == 0 ==> (Throwing(c.session, c.ec).Session? <==> c.session.Some?))
  {
    hide ReachedIn;
    NewSessionIsHonest(s, i);
  }

  /** `t` follows `s` after any number of steps, before each of which the resolver owned the mutex. */
  ghost predicate WhileLocked(n: nat, s: State, t: State) {
    if n == 0 then s == t else exists p, l :: WhileLocked(n - 1, s, p) && p.resolver.Locks() && Step(p, l, t)
  }

  /**
    A failed call that still has to ask for another resolve cannot return for as long as the resolver
    owns the mutex: whatever else happens, and however late it is, it stays where it is.
   */
  lemma {:induction false} FailedCallWaitsForResolver(s: State, i: nat, n: nat, t: State)
    requires i < |s.callers| && s.callers[i].Asking? && WhileLocked(n, s, t)
    ensures i < |t.callers| && t.callers[i] == s.callers[i]
  {
    hide ResolverNext, CallerNext;
    if n != 0 {
      var p, l :| WhileLocked(n - 1, s, p) && p.resolver.Locks() && Step(p, l, t);
      FailedCallWaitsForResolver(s, i, n - 1, p);
      AskingStays(p, i, l, t);
    }
  }

  lemma AskingStays(s: State, i: nat, l: Label, t: State)
    requires i < |s.callers| && s.callers[i].Asking? && s.resolver.Locks() && Step(s, l, t)
    ensures i < |t.callers| && t.callers[i] == s.callers[i]
  {
  }
}
