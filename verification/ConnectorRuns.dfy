/**
  Runs of the connector protocol: the turn of the resolver and the `new_session` call as they take their
  course undisturbed, and the run in which a failed call is stuck behind a working resolver.
 */
module ConnectorRuns {
  import opened Common
  import opened ConnectorProtocol

  /** Run a list of labels, one step each. */
  function Run(s: State, labels: seq<Label>): Option<State>
    decreases |labels|
  {
    if labels == [] then Some(s)
    else
      var t := Next(s, labels[0]);
      if t.None? then None else Run(t.value, labels[1..])
  }

  /** The labels of one resolver turn that got the mutex and found a resolve requested. */
  function Turn(result: Resolution): seq<Label> {
    if result.Failed? then [Lock, Resolve(result), Report, Retry]
    else [Lock, Resolve(result), Report, Clear, Publish, Unlock, Announce]
  }

  function AfterTurn(s: State, result: Resolution): State {
    if result.Failed? then s.(error := result.code)
    else s.(error := 0, needed := false, served := s.requests, basis := s.requests, done := true,
            endpoints := result.endpoints, published := s.published + [result.endpoints])
  }

  lemma TurnFails(s: State, result: Resolution)
    requires s.resolver.Waiting? && s.needed && result.Failed?
    ensures Run(s, Turn(result)) == Some(AfterTurn(s, result))
  {
    var s1 := s.(resolver := Resolving(s.requests));
    var s2 := s1.(resolver := Answered(s.requests, result));
    var s3 := s2.(error := result.code, resolver := Reported(s.requests, result));
    var s4 := s3.(resolver := Waiting);
    assert Run(s3, [Retry]) == Some(s4) by {
      assert Run(s4, []) == Some(s4);
    }
    assert Run(s2, [Report, Retry]) == Some(s4);
    assert Run(s1, [Resolve(result), Report, Retry]) == Some(s4);
  }

  /** The second half of a successful turn. */
  lemma TurnPublishes(s: State, asked: nat, found: seq<Endpoint>)
    requires s.resolver == Reported(asked, Resolved(found))
    ensures Run(s, [Clear, Publish, Unlock, Announce])
         == Some(s.(needed := false, served := asked, basis := asked, done := true, endpoints := found,
                    published := s.published + [found], resolver := Waiting))
  {
    hide CallerNext;
    var s1 := s.(needed := false, served := asked, resolver := Cleared(asked, found));
    var s2 := s1.(endpoints := found, published := s.published + [found], basis := asked, resolver := Published);
    var s3 := s2.(resolver := Announcing);
    RunFrom(s, Clear, s1, [Publish, Unlock, Announce]);
    RunFrom(s1, Publish, s2, [Unlock, Announce]);
    RunFrom(s2, Unlock, s3, [Announce]);
  }

  lemma TurnSucceeds(s: State, result: Resolution)
    requires s.resolver.Waiting? && s.needed && result.Resolved?
    ensures Run(s, Turn(result)) == Some(AfterTurn(s, result))
  {
    hide CallerNext, Run;
    var rest := [Clear, Publish, Unlock, Announce];
    var s1 := s.(resolver := Resolving(s.requests));
    var s2 := s1.(resolver := Answered(s.requests, result));
    var s3 := s2.(error := 0, resolver := Reported(s.requests, result));
    RunFrom(s, Lock, s1, [Resolve(result), Report] + rest);
    RunFrom(s1, Resolve(result), s2, [Report] + rest);
    RunFrom(s2, Report, s3, rest);
    TurnPublishes(s3, s.requests, result.endpoints);
    assert Turn(result) == [Lock] + ([Resolve(result), Report] + rest);
    assert [Resolve(result), Report] + rest == [Resolve(result)] + ([Report] + rest);
  }

  /** Call `i` is waiting and nothing keeps it from asking for another resolve. */
  ghost predicate MayCall(s: State, i: nat, ec0: Code) {
    i < |s.callers| && s.callers[i] == Blocked(ec0) && !s.resolver.Locks()
  }

  /** The labels of an undisturbed `new_session` whose connection attempt ends with `code`. */
  function CallOf(i: nat, passes: bool, order: seq<Endpoint>, code: Code): seq<Label> {
    if !passes then [GiveUp(i)]
    else if code == 0 then [Pass(i), Snapshot(i, order), ConnectOk(i)]
    else Failing(i, order, code) + [Ask(i)]
  }

  function Failing(i: nat, order: seq<Endpoint>, code: Code): seq<Label> {
    [Pass(i), Snapshot(i, order), ConnectError(i, code), Settle(i)]
  }

  function AfterCall(s: State, i: nat, passes: bool, order: seq<Endpoint>, code: Code): State
    requires i < |s.callers| && (passes ==> order != [])
  {
    var ec0 := s.callers[i].ec0;
    if !passes then
      s.(callers := s.callers[i := Done(ec0, None, if s.error != 0 then s.error else TIMED_OUT, [], false)])
    else if code == 0 then s.(callers := s.callers[i := Done(ec0, Some(order[0]), ec0, [order[0]], true)])
    else s.(callers := s.callers[i := Done(ec0, None, code, [order[0]], true)],
            needed := true, requests := s.requests + 1)
  }

  function SetCaller(s: State, i: nat, c: Caller): State
    requires i < |s.callers|
  {
    s.(callers := s.callers[i := c])
  }

  /** A step of call `i` other than `Ask` moves nothing else. */
  lemma Moves(s: State, i: nat, c: Caller, l: Label, c': Caller)
    requires i < |s.callers| && !ByResolver(l) && !l.Call? && !l.Retire? && !l.Ask?
    requires l.i == i && CallMove(s, l, c) == Some(c')
    ensures Next(SetCaller(s, i, c), l) == Some(SetCaller(s, i, c'))
  {
    assert CallMove(SetCaller(s, i, c), l, c) == Some(c');
    assert s.callers[i := c][i := c'] == s.callers[i := c'];
  }

  lemma RunFrom(s: State, l: Label, t: State, rest: seq<Label>)
    requires Next(s, l) == Some(t)
    ensures Run(s, [l] + rest) == Run(t, rest)
  {
    assert ([l] + rest)[1..] == rest;
  }

  /** The first half of a call that passes its wait. */
  lemma CallPrepares(s: State, i: nat, order: seq<Endpoint>)
    requires i < |s.callers| && s.callers[i].Blocked?
    requires s.done && order != [] && multiset(order) == multiset(s.endpoints)
    ensures Run(s, [Pass(i), Snapshot(i, order)]) == Some(SetCaller(s, i, Trying(s.callers[i].ec0, order)))
  {
    var ec0 := s.callers[i].ec0;
    assert s.callers == s.callers[i := Blocked(ec0)];
    Moves(s, i, Blocked(ec0), Pass(i), Passed(ec0));
    Moves(s, i, Passed(ec0), Snapshot(i, order), Trying(ec0, order));
    hide Next, SetCaller;
    RunFrom(s, Pass(i), SetCaller(s, i, Passed(ec0)), [Snapshot(i, order)]);
    RunFrom(SetCaller(s, i, Passed(ec0)), Snapshot(i, order), SetCaller(s, i, Trying(ec0, order)), []);
  }

  /** The second half of a call whose connection attempt fails. */
  lemma CallBreaks(s: State, i: nat, ec0: Code, order: seq<Endpoint>, code: Code)
    requires i < |s.callers| && order != [] && code != 0
    ensures Run(SetCaller(s, i, Trying(ec0, order)), [ConnectError(i, code), Settle(i)])
         == Some(SetCaller(s, i, Asking(ec0, code, [order[0]])))
  {
    var tried := [order[0]];
    Moves(s, i, Trying(ec0, order), ConnectError(i, code), Broken(ec0, code, tried));
    Moves(s, i, Broken(ec0, code, tried), Settle(i), Asking(ec0, code, tried));
    hide Next, SetCaller;
    RunFrom(SetCaller(s, i, Trying(ec0, order)), ConnectError(i, code),
            SetCaller(s, i, Broken(ec0, code, tried)), [Settle(i)]);
    RunFrom(SetCaller(s, i, Broken(ec0, code, tried)), Settle(i), SetCaller(s, i, Asking(ec0, code, tried)), []);
  }

  lemma CallFails(s: State, i: nat, order: seq<Endpoint>, code: Code)
    requires i < |s.callers| && s.callers[i].Blocked? && code != 0
    requires s.done && order != [] && multiset(order) == multiset(s.endpoints)
    ensures Run(s, Failing(i, order, code))
         == Some(SetCaller(s, i, Asking(s.callers[i].ec0, code, [order[0]])))
  {
    hide Next, SetCaller, Run;
    CallPrepares(s, i, order);
    CallBreaks(s, i, s.callers[i].ec0, order, code);
    assert Failing(i, order, code) == [Pass(i), Snapshot(i, order)] + [ConnectError(i, code), Settle(i)];
    RunConcat(s, [Pass(i), Snapshot(i, order)], [ConnectError(i, code), Settle(i)]);
  }

  lemma CallSucceeds(s: State, i: nat, order: seq<Endpoint>)
    requires i < |s.callers| && s.callers[i].Blocked?
    requires s.done && order != [] && multiset(order) == multiset(s.endpoints)
    ensures Run(s, CallOf(i, true, order, 0)) == Some(AfterCall(s, i, true, order, 0))
  {
    var ec0 := s.callers[i].ec0;
    var last := Done(ec0, Some(order[0]), ec0, [order[0]], true);
    CallPrepares(s, i, order);
    Moves(s, i, Trying(ec0, order), ConnectOk(i), last);
    hide Next, Run;
    assert CallOf(i, true, order, 0) == [Pass(i), Snapshot(i, order)] + [ConnectOk(i)];
    RunConcat(s, [Pass(i), Snapshot(i, order)], [ConnectOk(i)]);
    RunFrom(SetCaller(s, i, Trying(ec0, order)), ConnectOk(i), SetCaller(s, i, last), []);
    RunNothing(SetCaller(s, i, last));
  }

  lemma Asks(s: State, i: nat, c: Caller)
    requires i < |s.callers| && c.Asking? && !s.resolver.Locks()
    ensures Next(SetCaller(s, i, c), Ask(i))
         == Some(SetCaller(s, i, Done(c.ec0, None, c.ec, c.tried, true)).(needed := true, requests := s.requests + 1))
  {
    var d := Done(c.ec0, None, c.ec, c.tried, true);
    assert s.callers[i := c][i := d] == s.callers[i := d];
  }

  lemma CallRuns(s: State, i: nat, passes: bool, order: seq<Endpoint>, code: Code)
    requires i < |s.callers| && s.callers[i].Blocked? && !s.resolver.Locks()
    requires passes ==> s.done && order != [] && multiset(order) == multiset(s.endpoints)
    ensures Run(s, CallOf(i, passes, order, code)) == Some(AfterCall(s, i, passes, order, code))
  {
    var t := AfterCall(s, i, passes, order, code);
    if !passes {
      hide ResolverNext;
      RunFrom(s, GiveUp(i), t, []);
    } else if code == 0 {
      CallSucceeds(s, i, order);
    } else {
      hide Next, Run;
      var c := Asking(s.callers[i].ec0, code, [order[0]]);
      CallFails(s, i, order, code);
      RunConcat(s, Failing(i, order, code), [Ask(i)]);
      Asks(s, i, c);
      RunFrom(SetCaller(s, i, c), Ask(i), t, []);
      RunNothing(t);
    }
  }

  lemma RunNothing(s: State)
    ensures Run(s, []) == Some(s)
  {
  }

  lemma {:induction false} RunConcat(s: State, first: seq<Label>, second: seq<Label>)
    requires Run(s, first).Some?
    ensures Run(s, first + second) == Run(Run(s, first).value, second)
    decreases |first|
  {
    hide Next;
    if first == [] {
      assert first + second == second;
    } else {
      assert (first + second)[1..] == first[1..] + second;
      RunConcat(Next(s, first[0]).value, first[1..], second);
    }
  }

  lemma {:induction false} RunReaches(s: State, labels: seq<Label>)
    requires Reachable(s) && Run(s, labels).Some? && forall i :: 0 <= i < |labels| ==> Fair(labels[i])
    ensures Reachable(Run(s, labels).value)
    decreases |labels|
  {
    hide Next, Reachable;
    if labels != [] {
      var t := Next(s, labels[0]).value;
      Extend(s, labels[0], t);
      RunReaches(t, labels[1..]);
    }
  }

  // ------------------------------------------------------------------------------------------
  // A call that is stuck

  /** The first state with two calls waiting. */
  ghost function TwoCalls(): State {
    State(true, false, [], 0, Waiting, [Blocked(0), Blocked(0)], 1, 0, 0, [])
  }

  lemma TwoCallsReachable()
    ensures Reachable(TwoCalls())
  {
    var o := TwoCalls().(callers := []);
    assert ReachedIn(0, o);
    hide ReachedIn, ResolverNext;
    var o1, o2 := o.(callers := [Blocked(0)]), TwoCalls();
    assert o.callers + [Blocked(0)] == o1.callers && o1.callers + [Blocked(0)] == o2.callers;
    Extend(o, Call(0), o1);
    Extend(o1, Call(0), o2);
  }

  /** One endpoint resolved and two calls waiting. */
  lemma TwoCallsWait(e: Endpoint) returns (s: State)
    ensures Reachable(s) && s.resolver.Waiting? && s.done && s.endpoints == [e]
    ensures s.callers == [Blocked(0), Blocked(0)]
  {
    hide Run, Reachable;
    TwoCallsReachable();
    TurnSucceeds(TwoCalls(), Resolved([e]));
    RunReaches(TwoCalls(), Turn(Resolved([e])));
    s := AfterTurn(TwoCalls(), Resolved([e]));
  }

  /** A failed call's request sets the resolver to work while another failed call has yet to ask. */
  lemma StuckReachable(e: Endpoint, code: Code) returns (s: State)
    requires code != 0
    ensures Reachable(s) && s.resolver.Resolving? && |s.callers| == 2
    ensures s.callers[1] == Asking(0, code, [e])
  {
    hide Run, Reachable;
    s := TwoCallsWait(e);
    CallRuns(s, 0, true, [e], code);
    RunReaches(s, CallOf(0, true, [e], code));
    s := AfterCall(s, 0, true, [e], code);
    CallFails(s, 1, [e], code);
    RunReaches(s, Failing(1, [e], code));
    s := SetCaller(s, 1, Asking(0, code, [e]));
    var t := s.(resolver := Resolving(s.requests));
    Extend(s, Lock, t);
    s := t;
  }

  lemma {:induction false} ResolverTakesItsTime(s: State, n: nat) returns (t: State)
    requires s.resolver.Locks()
    ensures WhileLocked(n, s, t) && t.resolver == s.resolver
  {
    if n == 0 {
      t := s;
    } else {
      var p := ResolverTakesItsTime(s, n - 1);
      t := p.(callers := p.callers + [Blocked(0)]);
      assert Step(p, Call(0), t);
    }
  }

  /**
    Whatever its deadline, a call that failed to connect can be held up for any number of steps: in some
    reachable state it has only to ask for another resolve, and every run of those steps during which the
    resolver keeps the mutex, of which there is one, leaves it there.
   */
  lemma CallCanBeStuck(e: Endpoint, code: Code, n: nat)
    requires code != 0
    ensures exists s, t ::
      && Reachable(s) && |s.callers| == 2 && s.callers[1] == Asking(0, code, [e])
      && WhileLocked(n, s, t) && 2 <= |t.callers| && t.callers[1] == s.callers[1] && t.resolver.Locks()
  {
    hide Reachable, WhileLocked;
    var s := StuckReachable(e, code);
    var t := ResolverTakesItsTime(s, n);
    FailedCallWaitsForResolver(s, 1, n, t);
  }
}
