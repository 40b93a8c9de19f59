/**
  The connector object: the setters of the resolver thread, one turn of its loop, and `new_session`,
  proved to perform the steps of the connector protocol.
 */
module Connector {
  import opened Common
  import opened ConnectorProtocol
  import opened ConnectorRuns

  class BaseConnector {
    var endpoints: seq<Endpoint>
    var resolveError: Code
    var resolveNeeded: bool
    var resolveDone: bool

    /** The object agrees with a protocol state. */
    ghost predicate Shows(s: State)
      reads this
    {
      endpoints == s.endpoints && resolveError == s.error && resolveNeeded == s.needed && resolveDone == s.done
    }

    ghost predicate Valid()
      reads this
    {
      resolveDone ==> endpoints != []
    }

    constructor ()
      ensures Valid() && forall s :: Init(s) ==> Shows(s)
    {
      endpoints, resolveError, resolveNeeded, resolveDone := [], 0, true, false;
    }

    /** Copies the resolver's forward-only iterator, then replaces the list as a whole. */
    method UpdateEndpoints(resolved: seq<Endpoint>)
      modifies this`endpoints
      ensures endpoints == resolved
    {
      var fetched: seq<Endpoint> := [];
      var rest := resolved;
      while rest != []
        invariant fetched + rest == resolved
        decreases |rest|
      {
        fetched, rest := fetched + [rest[0]], rest[1..];
      }
      endpoints := fetched;
    }

    /** One turn of the resolver loop; without the mutex or without a request it does nothing. */
    method ResolveTurn(locked: bool, result: Resolution)
      requires Valid() && result.Valid()
      modifies this
      ensures Valid()
      ensures !(locked && old(resolveNeeded)) ==>
        && endpoints == old(endpoints) && resolveError == old(resolveError)
        && resolveNeeded == old(resolveNeeded) && resolveDone == old(resolveDone)
      ensures locked && old(resolveNeeded) ==>
        if result.Failed?
        then
          && resolveError == result.code && resolveNeeded
          && endpoints == old(endpoints) && resolveDone == old(resolveDone)
        else resolveError == 0 && !resolveNeeded && endpoints == result.endpoints && resolveDone
      ensures locked && old(resolveNeeded) ==> forall s: State :: old(Shows(s)) && s.resolver.Waiting? ==>
        Run(s, Turn(result)).Some? && Shows(Run(s, Turn(result)).value)
    {
      if !locked || !resolveNeeded {
        return;
      }
      forall s: State | Shows(s) && s.resolver.Waiting?
        ensures Run(s, Turn(result)) == Some(AfterTurn(s, result))
      {
        if result.Failed? {
          TurnFails(s, result);
        } else {
          TurnSucceeds(s, result);
        }
      }
      resolveError := result.Error();
      if resolveError != 0 {
        return;
      }
      resolveNeeded := false;
      UpdateEndpoints(result.endpoints);
      resolveDone := true;
    }

    /**
      `new_session`. `inTime` says whether the wait for the first resolve ended before the deadline,
      `order` is the shuffled endpoint list and `connect` the code each connection attempt ends with.
     */
    method NewSession(inTime: bool, order: seq<Endpoint>, connect: Endpoint -> Code, ec0: Code)
      returns (session: Option<Endpoint>, ec: Code, tried: seq<Endpoint>)
      requires Valid() && multiset(order) == multiset(endpoints)
      modifies this`resolveNeeded
      ensures session.None? ==> ec != 0
      ensures session.Some? ==> ec == ec0 && tried == [session.value] && session.value in endpoints
      ensures !(inTime && resolveDone) ==>
        session.None? && tried == [] && ec == if resolveError != 0 then resolveError else TIMED_OUT
      ensures inTime && resolveDone ==> tried == [order[0]] && (session.Some? <==> connect(order[0]) == 0)
      ensures inTime && resolveDone && session.None? ==> ec == connect(order[0]) && resolveNeeded
      ensures tried == [] || session.Some? ==> resolveNeeded == old(resolveNeeded)
      ensures forall s: State, i: nat :: old(Shows(s)) && MayCall(s, i, ec0) ==>
        var passes := inTime && resolveDone;
        var t := Run(s, CallOf(i, passes, order, if passes then connect(order[0]) else 0));
        && t.Some? && Shows(t.value)
        && t.value.callers == s.callers[i := Done(ec0, session, ec, tried, passes)]
    {
      var passes := inTime && resolveDone;
      forall s: State, i: nat | Shows(s) && MayCall(s, i, ec0)
        ensures var code := if passes then connect(order[0]) else 0;
          Run(s, CallOf(i, passes, order, code)) == Some(AfterCall(s, i, passes, order, code))
      {
        CallRuns(s, i, passes, order, if passes then connect(order[0]) else 0);
      }
      tried := [];
      if !inTime || !resolveDone {
        ec := if resolveError != 0 then resolveError else TIMED_OUT;
        return None, ec, tried;
      }
      ec := ec0;
      assert endpoints[0] in multiset(order);
      for i := 0 to |order|
        invariant i == 0 && tried == [] && ec == ec0
      {
        tried := tried + [order[i]];
        if connect(order[i]) == 0 {
          assert order[i] in multiset(order);
          return Some(order[i]), ec, tried;
        }
        ec := connect(order[i]);
        break;
      }
      if ec == 0 {
        ec := resolveError;
      }
      resolveNeeded := true;
      session := None;
    }
  }
}
