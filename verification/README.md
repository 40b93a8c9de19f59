# Stream-client: verified models of the connection pool and the machinery under it

Stream-client is a C++ library of client-side network primitives. This project models, in Dafny, the
parts of it in which threads, timers and byte counts interact, and proves what they guarantee over every
interleaving, every schedule of short reads and writes, and every sequence of calls.

- `PoolStrategy.dfy`, `PoolProtocol.dfy`, `PoolSafety.dfy`, `PoolFill.dfy`, `PoolWakeup.dfy`,
  `PoolCalls.dfy`: the connection pool as a labelled transition system. Clients, the watcher thread and the
  adder threads of a refill interleave one critical section at a time; labels carry every choice of the
  scheduler, the clock, the network and the timed locks. `ConnectionPool.dfy` holds the pool and strategy
  objects themselves. Its sweep, `try_get_session` and `return_session` are proved to perform their step;
  a call that waits is proved to answer by what its looks at the list found, and to perform the look that
  decides it, and `PoolCalls.CallAnswers` proves the same of every interleaved call of the protocol.
- `ConnectorProtocol.dfy`, `ConnectorRuns.dfy`, `Connector.dfy`: the connector and its background resolver,
  as a transition system, some of its runs, and an object whose turn and `new_session` are such runs.
- `PooledConnector.dfy`, `PooledRefill.dfy`: the two systems side by side, every adder thread being a
  `new_session` call, and the recovery of the whole machine.
- `TimedBase.dfy`: the deadline timer, its self-reposting callback, expiration tokens, the event loop, and
  TLS operations that drive TCP operations underneath.
- `TlsTransfer.dfy`, `HttpSocket.dfy`: the transfer loops.
- `StaticPool.dfy`: the bump allocator and its shared copies.
- `Common.dfy`: vocabulary shared by all of them.

`dafny verify dfyconfig.toml` checks everything.

## Where the code and its documentation differ

The models follow the code. Where a promise of the documentation does not hold of the code, the exact
condition under which it does is proved.

- "Real number of established connections may be size + 1": with a positive idle timeout or the greedy
  strategy, true of every run if and only if clients hold at most one session at a time; the exact bound is
  size + k. With an idle timeout of zero the conservative strategy never gathers more than a third of the
  size, rounded up, beside the k sessions held (`PoolFill.DocumentedBoundIff`).
- TLS `send` is documented to block until all of the buffer has been written or an error occurs. Every
  `write_some` is given the whole buffer again, so this holds on every error-free schedule of writes if and
  only if the buffer has at most one byte (`TlsTransfer.SendKeepsPromiseIff`): a write that takes the count
  past the size keeps the loop going, and without an error it returns exactly if none does
  (`TlsTransfer.ReturnsUnlessOvershoots`). Of the schedules on which it does return, all deliver the buffer
  if and only if all its bytes are equal (`TlsTransfer.SendIsCorrectIff`). For `receive` both conditions are
  that the buffer has at most one byte (`TlsTransfer.ReceiveKeepsPromiseIff`,
  `TlsTransfer.ReceiveIsCorrectIff`).
- A TLS operation restores the socket's timeout mode unless it is given a duration below one microsecond
  while the mode is on: then it throws after switching the mode off (`TimedBase.ModeRestoredIff`).
- The conservative strategy is documented to add up to two thirds of the vacant places. It keeps to that if
  and only if more than one place is vacant or it backs off (`PoolStrategy.DocumentedShareIff`).
- Its delay is documented to start at the initial one and to be multiplied by a number in [1, multiplier) on
  each failure. It starts there if and only if that is zero, or the random factor is one and the cap does
  not cut it (`PoolStrategy.DocumentedStartIff`), does not shrink if and only if the factor is at least
  1 / multiplier, and stays below the full multiple if and only if the factor is below one or the cap cuts it
  (`PoolStrategy.DocumentedGrowthIff`); it drops to zero exactly if the factor scales it below one
  (`PoolStrategy.DelayVanishesIff`).
- Its `refill` is documented to return true if it added at least one session. It does so exactly if some
  adder added its session or dropped it under lock contention (`PoolCalls.RefillMakesItsAttempts`), so it
  also does where the only session was dropped (`PoolCalls.DropCountsAsSuccess`). The result is right if and
  only if none was dropped or one was added (`ConnectionPool.ConservativeStrategy.Refill`).
- The interface documents `refill` to return true if all sessions have been added. The greedy one returns
  true whenever a place was vacant, which is right if and only if a place was vacant and every attempt added
  its session (`ConnectionPool.GreedyRefill`).
- A `new_session` call that meets an error or a timeout is documented to trigger the resolver. It does if and
  only if it got past its wait for the first resolve (`ConnectorProtocol.NullAsksIffPassed`).
- The throwing `is_connected()` is documented to return false over an empty pool; it throws `not_found`
  there and never returns false (`ConnectionPool.Pool.IsConnectedOrThrow`).
- `get_session` and `new_session` leave the caller's error code untouched on success, so success reads as
  one exactly if the code was clear before (`ConnectionPool.Pool.GetSession`,
  `ConnectorProtocol.NewSessionIsHonest`).
- `is_connected` waiters can swallow the notification meant for a `get_session` waiter
  (`PoolWakeup.NoLostWakeupIff`).
- `recv_response` reports a buffer overflow exactly over a buffer that is full from the start; reads never
  fill it. One byte short of full, with a parser that takes nothing, it asks for nothing forever
  (`HttpSocket.RecvResponse`).

## Assumptions

- The clock is monotone. `size_t` and `unsigned long` have 64 bits.
- A successful resolve yields at least one endpoint; a thrown `system_error` carries a nonzero code.
- Clients return only sessions they pulled; the pool size is below 2^64 - 2.
- A successful `write_some` or `read_some` over a non-empty buffer transfers at least one byte.

## Model

| member | source | states |
|---|---|---|
| PoolStrategy.ParallelIsExact | include/stream-client/connector/impl/pool_strategy.ipp:84-85 | The unsigned attempt count a is a third of the vacancy v, rounded up (v <= 3a < v + 3) and within [1, v], if and only if the vacancy is positive and not one of the two largest `size_t` values; otherwise it wraps to 2^64. |
| PoolStrategy.AttemptsFitVacancy | include/stream-client/connector/impl/pool_strategy.ipp:40-95 | The greedy strategy makes v attempts; the conservative one none exactly before its wait is over, one after a failure, a third of v rounded up otherwise. |
| PoolStrategy.DocumentedShareIff | include/stream-client/connector/pool_strategy.hpp:98-112 | A conservative refill keeps to two thirds of the vacant places if and only if at least two are vacant or it backs off. |
| PoolStrategy.Finish | include/stream-client/connector/impl/pool_strategy.ipp:97-112 | A success ends the delay and leaves the wait; a failure makes the wait end as many milliseconds from now as the new delay has; the strategy's parameters and bounds are kept. |
| PoolStrategy.DelayReaches | include/stream-client/connector/impl/pool_strategy.ipp:102-109 | The delay a failure leaves, exactly: at least d milliseconds if and only if d <= 10000 and the random factor times the full delay (the initial one, or the present one times the multiplier) reaches d. |
| PoolStrategy.DelayNeverWraps | include/stream-client/connector/impl/pool_strategy.ipp:105 | Growing a capped delay by any `unsigned` multiplier does not wrap. |
| PoolStrategy.DocumentedGrowthIff | include/stream-client/connector/impl/pool_strategy.ipp:102-109 | A further failure does not shrink the delay iff the random factor is at least 1 / multiplier, and keeps it below the full multiple iff the factor is below one or the cap cuts it. |
| PoolStrategy.DocumentedStartIff | include/stream-client/connector/impl/pool_strategy.ipp:102-109 | The first delay is the initial one iff that is zero, or the factor is one and the cap does not cut it. |
| PoolStrategy.DelayVanishesIff | include/stream-client/connector/impl/pool_strategy.ipp:107-109 | The delay drops to zero exactly if the factor scales it below one; the factor zero always does. |
| PoolStrategy.BackoffBound | include/stream-client/connector/impl/pool_strategy.ipp:102-112 | After k consecutive failures the delay is at most min(10 s, initial * multiplier^(k-1)) for all random factors, and the wait ends exactly that long after the last failure. |
| PoolStrategy.VacancyDecays | include/stream-client/connector/impl/pool_strategy.ipp:84-99 | 3^k v_k <= 2^k v_0 for the vacancy after k successful conservative refills. |
| PoolStrategy.VacancyVanishes | include/stream-client/connector/impl/pool_strategy.ipp:84-99 | The vacancy strictly decreases until it is zero. |
| PoolProtocol.SweepRemovesPrefix | include/stream-client/connector/impl/connection_pool.ipp:133-142 | In a time-ordered list the sweep removes exactly the prefix of sessions listed for at least the idle timeout. |
| PoolProtocol.KeptExactly | include/stream-client/connector/impl/connection_pool.ipp:135-142 | In any list the sweep keeps each entry listed for less than the idle timeout, as often as it occurs, and no other. |
| PoolProtocol.OrderKept | include/stream-client/connector/impl/connection_pool.ipp:59-163 | Every step of every thread keeps the list equal to the unremoved rest of a time-ordered append log. |
| PoolSafety.ConservationKept | include/stream-client/connector/impl/connection_pool.ipp:59-163 | Every step keeps each session in exactly one place. |
| PoolSafety.CountsKept | include/stream-client/connector/impl/connection_pool.ipp:121-163 | No step but a sweep raises the number of present and expected sessions, and a sweep to at most the size plus what clients hold. |
| PoolSafety.SizeBound | include/stream-client/connector/impl/connection_pool.ipp:121-163 | On every interleaving in which clients hold at most k sessions at once, pooled + still to be added + held <= size + k. |
| PoolSafety.SessionsConserved | include/stream-client/connector/impl/connection_pool.ipp:59-110 | In every reachable state each established session is with exactly one of pool, adder, client or destroyed, and the four counts add up to the sessions created. |
| PoolSafety.RepliesAreHonest | include/stream-client/connector/impl/connection_pool.ipp:40-91 | A session handed out is the oldest one not yet removed and is then in this client's hands only; where `is_connected` says yes, such a session is listed and nowhere else; at `not_found` every session there is has left the list or not reached it yet. |
| PoolSafety.PoolIsLogSuffix | include/stream-client/connector/impl/connection_pool.ipp:66-107 | The pool is always a contiguous suffix of the append log, whose time stamps never decrease, so eviction keeps first-in-first-out order. |
| PoolSafety.BackoffIsBounded | include/stream-client/connector/impl/pool_strategy.ipp:67-112 | In every reachable state the delay is at most ten seconds, the wait ends within the delay, and no refill is under way before it is over. |
| PoolSafety.AddersEndWithRefill | include/stream-client/connector/impl/pool_strategy.ipp:40-95 | A refill ends only when every adder is done and nothing is on its way, all sessions then being listed, held or destroyed; outside a refill there is no adder. |
| PoolCalls.WaitFailsIff | include/stream-client/connector/impl/connection_pool.ipp:49-53 | The wait fails exactly if the list was empty at every look up to and including the one after the deadline. |
| PoolCalls.WaitEndsWithFirst | include/stream-client/connector/impl/connection_pool.ipp:49-53 | A wait that does not fail ends with the first non-empty list found. |
| PoolCalls.CallAnswers | include/stream-client/connector/impl/connection_pool.ipp:40-69 | However a waiting call interleaves with all other threads, it answers, and leaves the list, as the waiting loop over its own looks does; `not_found` only if all of them found the list empty, the last after the deadline. |
| PoolCalls.ExpiredCallAnswers | include/stream-client/connector/impl/connection_pool.ipp:49-53 | A call whose deadline has passed while it slept answers at its next look, whatever other threads do in between. |
| PoolCalls.FirstLookAnswers | include/stream-client/connector/impl/connection_pool.ipp:49-53 | A call answers at its first look exactly if that finds a session. |
| PoolCalls.RefillMakesItsAttempts | include/stream-client/connector/impl/pool_strategy.ipp:27-115 | A whole refill amid all other threads starts exactly the attempts owed to the counted vacancy, ends when all are done, and counts as a success exactly if some attempt connected, its session being listed or dropped. |
| PoolCalls.BackoffOverRuns | include/stream-client/connector/impl/pool_strategy.ipp:97-112 | On every interleaved run, after k refills in a row have failed from no delay, the delay is at most min(10 s, initial * multiplier^(k-1)) and the wait ends exactly that long after the last failure. |
| PoolCalls.DropCountsAsSuccess | include/stream-client/connector/impl/pool_strategy.ipp:74-100 | A run whose refill counts as a success although its only session was dropped and none was ever listed. |
| PoolFill.ConservativeFillConverges | include/stream-client/connector/impl/pool_strategy.ipp:63-100 | Every undisturbed run, however its threads interleave, never overshoots the size, has exactly the predicted vacancy after k refills, and ends with exactly the size pooled. |
| PoolFill.CanAlwaysRefill | include/stream-client/connector/impl/connection_pool.ipp:121-163 | From every reachable state some run of watcher, adders and clock alone, in which no attempt fails and no session is dropped, fills the pool to its peak (the size; a third of it for the conservative strategy with an idle timeout of zero), clients keeping what they hold. |
| PoolFill.PeakBound | include/stream-client/connector/impl/connection_pool.ipp:127-158 | No run ever has more than peak + k connections. |
| PoolFill.DocumentedBoundIff | include/stream-client/connector/connection_pool.hpp:46-49 | For every idle timeout and strategy, the documented size + 1 bound holds on every run if and only if peak + k is within it (or nothing is pooled or pulled), the peak being the size or, for the conservative strategy with a timeout of zero, a third of it; peak + k is reached. |
| PoolWakeup.TakersNeverMiss | include/stream-client/connector/impl/connection_pool.ipp:49-109 | If all waiters are `get_session` callers, or there is one client, a thread sleeps only while the pool is covered by pending notifications and woken threads. |
| PoolWakeup.CheckerSwallows | include/stream-client/connector/impl/connection_pool.ipp:113-118 | A run in which an `is_connected` waiter takes the only notification and leaves a `get_session` waiter asleep over a non-empty pool. |
| PoolWakeup.NoLostWakeupIff | include/stream-client/connector/impl/connection_pool.ipp:49-118 | No wakeup is ever lost if and only if nobody calls `is_connected`, or a single client uses the pool, or its size is zero. |
| ConnectionPool.Pool.EraseIdle | include/stream-client/connector/impl/connection_pool.ipp:132-142 | Erasing while iterating keeps exactly the sessions listed for less than the idle timeout, in order, and counts them. |
| ConnectionPool.Pool.SweepIdle | include/stream-client/connector/impl/connection_pool.ipp:127-148 | The watcher's critical section keeps exactly those sessions, counts as vacant what the rest leaves of the size, and is the sweep step of the protocol. |
| ConnectionPool.Pool.EnsureSession | include/stream-client/connector/impl/connection_pool.ipp:40-55 | True exactly when the lock was obtained and the list was non-empty at the final check; the error tells the two failures apart and is otherwise untouched. |
| ConnectionPool.Pool.GetSession | include/stream-client/connector/impl/connection_pool.ipp:59-69 | Takes the front of the list seen at the final check or returns null with the right error; any look of the protocol that decides such a call makes the same move and reply, and without the lock so does the lock timeout. |
| ConnectionPool.Pool.TryGetSession | include/stream-client/connector/impl/connection_pool.ipp:73-91 | The same without waiting: performs the protocol's step, list, hands and reply, with and without the lock. |
| ConnectionPool.Pool.GetSessionOrThrow | include/stream-client/connector/connection_pool.hpp:153-167 | Returns a session or throws `timed_out` or `not_found`; the throw for a null session without an error is unreachable. |
| ConnectionPool.Pool.ReturnSession | include/stream-client/connector/impl/connection_pool.ipp:94-110 | Appends and notifies exactly for an open session with the lock obtained, as the protocol's return and an adder's append do, and otherwise drops it, as they do; keeps the list ordered by time. |
| ConnectionPool.Pool.IsConnected | include/stream-client/connector/impl/connection_pool.ipp:113-118 | True exactly if the list was seen non-empty under the lock; a deciding look of the protocol, or without the lock its timeout, makes the same reply and takes nothing. |
| ConnectionPool.Pool.IsConnectedOrThrow | include/stream-client/connector/connection_pool.hpp:273-281 | Returns true or throws `timed_out` or `not_found`; never returns false. |
| ConnectionPool.GreedyRefill | include/stream-client/connector/impl/pool_strategy.ipp:27-49 | One attempt per vacant place, each joined with what it came to before the call returns; reports more work whenever places were vacant, and whether that says that all sessions were added. |
| ConnectionPool.ConservativeStrategy.Create | include/stream-client/connector/impl/pool_strategy.ipp:52-61 | Throws exactly for a multiplier below one; otherwise starts with the given parameters and without delay or wait. |
| ConnectionPool.ConservativeStrategy.Refill | include/stream-client/connector/impl/pool_strategy.ipp:64-115 | Does nothing before the wait is over; otherwise makes one attempt after a failure, else a third of the vacancy; succeeds iff some attempt handed a session to the pool, listed or dropped, ending the delay; a failure leaves exactly the scaled and capped delay and a wait of that length; all as the protocol's strategy does. The result says whether a session was added iff none was dropped or one was added. |
| ConnectorProtocol.ReachedInv | include/stream-client/connector/impl/connector.ipp:49-113 | The invariant of resolver and callers in every reachable state. |
| ConnectorProtocol.NoRequestIsLost | include/stream-client/connector/impl/connector.ipp:93-111 | After the r-th request, `resolve_needed_` stays set in every later state until a resolve started after it succeeded; with it clear there is no resolve error, and with the mutex free the endpoints come from such a resolve. |
| ConnectorProtocol.AnnouncedMeansResolved | include/stream-client/connector/impl/connector.ipp:109-112 | `resolve_done_` implies a non-empty endpoint list, the latest published. |
| ConnectorProtocol.NewSessionIsHonest | include/stream-client/connector/impl/connector.ipp:49-85 | A null session always has a nonzero error, a session leaves the caller's code untouched; past the wait exactly one endpoint is tried, otherwise none, taken from a list one successful resolve published. |
| ConnectorProtocol.NullAsksIffPassed | include/stream-client/connector/connector.hpp:100-118 | A call that returns null has asked for another resolve if and only if it got past its wait; one that did not reports the last resolve's error or else a timeout. |
| ConnectorProtocol.SecondThrowUnreachable | include/stream-client/connector/connector.hpp:132-144 | The throwing overload returns the session or throws the call's own error code; the throw for a null session without an error is unreachable. |
| ConnectorProtocol.FailedCallWaitsForResolver | include/stream-client/connector/connector.hpp:252-258 | Along every run during which the resolver keeps the mutex, a failed call that has yet to ask for a resolve stays where it is. |
| ConnectorRuns.CallCanBeStuck | include/stream-client/connector/impl/connector.ipp:76-84 | For every n a reachable state and a run of n steps exist that keep a failed call inside `new_session`, whatever its deadline. |
| ConnectorRuns.CallRuns | include/stream-client/connector/impl/connector.ipp:49-85 | The protocol's steps of an undisturbed call compose to its result, for a timeout, a connection and a failure. |
| ConnectorRuns.TurnSucceeds | include/stream-client/connector/impl/connector.ipp:93-112 | The protocol's seven steps of a successful turn compose to the published state. |
| Connector.BaseConnector.UpdateEndpoints | include/stream-client/connector/connector.hpp:218-228 | The list is replaced as a whole by what the iterator yields, in order. |
| Connector.BaseConnector.ResolveTurn | include/stream-client/connector/impl/connector.ipp:92-113 | A turn without mutex or request changes nothing; a failed resolve leaves its error and the request; a successful one replaces the endpoints, clears error and request and announces; each is exactly the protocol's run. |
| Connector.BaseConnector.NewSession | include/stream-client/connector/impl/connector.ipp:49-85 | Tries exactly the first shuffled endpoint; a failure reports its code and asks for another resolve, a wait given up the resolve error or a timeout; object and result are those of the protocol's run of the call. |
| PooledConnector.Projects | include/stream-client/connector/impl/pool_strategy.ipp:31-38 | Every run of pool and connector together is a run of each. |
| PooledConnector.SessionsComeFromResolves | include/stream-client/connector/impl/connector.ipp:68-72 | Every session listed, carried or held was connected to an endpoint some successful resolve published, and the size bound holds with the connector in the loop. |
| PooledConnector.AddersNeverSeeNull | include/stream-client/connector/impl/pool_strategy.ipp:74-82 | An adder's `new_session` returns a session or throws a nonzero code. |
| PooledRefill.AdderFollowsItsCall | include/stream-client/connector/impl/pool_strategy.ipp:74-82 | In every reachable state an adder moves on exactly as its `new_session` call ended: with the session, connected to the endpoint tried, or finished without one. |
| PooledRefill.MatchPath | include/stream-client/connector/impl/pool_strategy.ipp:31-46 | Whatever the pool could do by itself the machine can do, an adder's connecting being a whole `new_session` call and its resolve. |
| PooledRefill.MachineCanRefill | include/stream-client/connector/impl/connection_pool.ipp:121-163 | From every reachable state of pool and connector, whatever calls are failing and whatever the resolver is doing, some run without clients fills the pool to that peak. |
| TimedBase.TimedSocket.Expire | include/stream-client/detail/timed_base.hpp:50-72 | Arms the timer for the duration counted from now or for the deadline given, leaves it alone for an infinite duration, or throws below one microsecond; the fired flag is reset in every case. |
| TimedBase.TimedSocket.Drop | include/stream-client/detail/timed_base.hpp:90-95 | Destroying an armed token disarms the timer and cancels the pending wait. |
| TimedBase.TimedSocket.RunCallback | include/stream-client/detail/timed_base.hpp:164-178 | When overdue the callback closes the socket, sets the fired flag and disarms the timer, otherwise it does nothing; it always waits again. |
| TimedBase.TimedSocket.Operate | include/stream-client/stream/impl/stream_socket.ipp:114-134 | A blocking operation reports a timeout exactly if the timer ran before the completion and not before start + duration, the deadline given, or under an infinite limit the deadline already set; then the socket is closed. It leaves the timer disarmed, or under an infinite limit as it was until it struck; exactly one callback stays outstanding. |
| TimedBase.OneCallbackOutstanding | include/stream-client/detail/timed_base.hpp:164-178 | In every reachable state exactly one deadline callback is waiting or queued. |
| TimedBase.StrikesOnlyWhenDue | include/stream-client/detail/timed_base.hpp:151-178 | A callback closes the socket only if the deadline now in force has passed, so a stale one never strikes a later operation early. |
| TimedBase.DueCallbackStrikes | include/stream-client/detail/timed_base.hpp:164-178 | A callback that runs after the deadline in force has passed closes the socket, marks the operation as struck and disarms the timer. |
| TimedBase.OpTimesOutAtItsDeadline | include/stream-client/stream/impl/stream_socket.ipp:114-134 | From the start of a TCP operation to its handler, over every run of the loop, the timer stays set to start + duration or to the deadline given until it strikes, not before that time; the handler reports a timeout exactly if it struck. |
| TimedBase.TimeoutsAreReal | include/stream-client/stream/impl/stream_socket.ipp:120-127 | A handler reports a timeout exactly when the timer struck during its own operation, and then the clock had reached the deadline in force. |
| TimedBase.TlsDeadlineSurvives | include/stream-client/stream/impl/ssl_stream_socket.ipp:141-151 | During a TLS operation any number of TCP operations leave the timer set to its start + duration, or to the deadline given, until it strikes; on the way out the timer is disarmed and the timeout mode restored. |
| TimedBase.ModeRestoredIff | include/stream-client/stream/impl/ssl_stream_socket.ipp:57-67 | The timeout mode is restored if and only if the duration was not refused or the mode was off; after a refused one the default timeout is infinite. |
| TimedBase.NestedKeepsOuterIff | include/stream-client/detail/timed_base.hpp:56-95 | A nested operation leaves the outer deadline armed if and only if its own timeout is infinite. |
| TlsTransfer.Send | include/stream-client/stream/impl/ssl_stream_socket.ipp:82-94 | Puts a concatenation of prefixes of the buffer on the wire; returns without an error exactly when their lengths first add up to the size, and with the error of a write that reports one. |
| TlsTransfer.WireByWrites | include/stream-client/stream/impl/ssl_stream_socket.ipp:87-92 | Write by write, the bytes added to the wire are the first ones of the buffer, and the count grows by their number. |
| TlsTransfer.SendDeliversIff | include/stream-client/stream/impl/ssl_stream_socket.ipp:82-94 | Under a completing schedule the wire carries the buffer if and only if every write put out the bytes due at its position. |
| TlsTransfer.SendIsCorrectIff | include/stream-client/stream/impl/ssl_stream_socket.ipp:82-94 | Whenever `send` returns without an error it has written the buffer, for every schedule of short writes, if and only if all bytes of the buffer are equal. |
| TlsTransfer.ReturnsUnlessOvershoots | include/stream-client/stream/impl/ssl_stream_socket.ipp:87-92 | On an endless error-free schedule `send` returns if and only if no write takes its count past the size. |
| TlsTransfer.SendKeepsPromiseIff | include/stream-client/stream/ssl_stream_socket.hpp:119-137 | The documented promise, to return with exactly the buffer written, holds on every error-free schedule if and only if the buffer has at most one byte. |
| TlsTransfer.Receive | include/stream-client/stream/impl/ssl_stream_socket.ipp:111-123 | Each read overwrites the front of the caller's buffer; returns without an error exactly when the counts add up to its size, and with the error of a read that reports one. |
| TlsTransfer.StoredByLast | include/stream-client/stream/impl/ssl_stream_socket.ipp:116-121 | Each position of the buffer holds the byte of the last read that reached it. |
| TlsTransfer.StoredBefore | include/stream-client/stream/impl/ssl_stream_socket.ipp:116-121 | A position no read reached holds what it held before. |
| TlsTransfer.ReceiveIsCorrectIff | include/stream-client/stream/impl/ssl_stream_socket.ipp:111-123 | Whenever `receive` returns without an error the buffer holds the stream's bytes, for every way they arrive in pieces, if and only if it has at most one byte. |
| TlsTransfer.ReceiveKeepsPromiseIff | include/stream-client/stream/ssl_stream_socket.hpp:184-202 | The documented promise, to return with the buffer full of the stream's bytes, holds on every error-free stream if and only if the buffer has at most one byte. |
| TlsTransfer.WholeReadArrives | include/stream-client/stream/impl/ssl_stream_socket.ipp:116-121 | A first read that fills the buffer is delivered. |
| HttpSocket.SendRequest | include/stream-client/stream/impl/http_socket.ipp:26-45 | Under any schedule of short writes and errors, each turn being the stream's own for what was left, the wire carries exactly the consumed prefix of the serialized request, and all of it without an error; an error of a turn ends the call with it. |
| HttpSocket.ReadSizeIsExact | include/stream-client/stream/impl/http_socket.ipp:56-62 | The unsigned read size wraps exactly over a full buffer, which is exactly when the read is refused; otherwise it is 65536 or, if less, one byte short of the room. |
| HttpSocket.RecvResponse | include/stream-client/stream/impl/http_socket.ipp:49-89 | Bytes parsed followed by bytes buffered are the bytes buffered before followed by the bytes read, in order; every error-free read is followed by a parse of all that is buffered, and the last parse decides: its error stops the call, completion completes it, otherwise it reads on. A read error stops the call; the end of the stream is reported exactly if the parser had got no byte, and is otherwise the parser's to judge. With a parser that leaves at most the header limit unread every read asks for 65536 bytes; overflow is reported exactly over a buffer full from the start; one byte short of full with a parser that takes nothing it reads on forever, asking for nothing. |
| HttpSocket.RecvNext | include/stream-client/stream/impl/http_socket.ipp:94-107 | Bytes left by an earlier response never reach this one, and the buffer never fills; a response is returned exactly if the last parse was complete, or the stream ended after some byte and the parser accepts that. |
| StaticPool.LiveBlocksDisjoint | include/stream-client/stream/detail/static_allocator.hpp:34-54 | After any matched run through any copies, every block in use lies inside the arena and any two are disjoint. |
| StaticPool.CountsAndCursor | include/stream-client/stream/detail/static_allocator.hpp:34-54 | The count is the number of blocks in use; the cursor is the total size handed out since the last reset and, empty blocks aside, at the start exactly when none is in use. |
| StaticPool.ReleasedOnce | include/stream-client/stream/detail/static_allocator.hpp:19-32 | References are copies not yet destroyed; the arena is released exactly once, with the last of them. |
| StaticPool.Pool.AllocBytes | include/stream-client/stream/detail/static_allocator.hpp:34-45 | Succeeds exactly if a byte of the arena stays free; moves the cursor by the bytes and counts the block; performs the run's allocation step. |
| StaticPool.Pool.Allocate | include/stream-client/stream/detail/static_allocator.hpp:125-128 | The block is large enough for the elements if and only if their byte count does not wrap. |
| StaticPool.Pool.DeallocOne | include/stream-client/stream/detail/static_allocator.hpp:47-54 | Counts one block less and starts over with the last; performs the run's deallocation step for any block in use. |
| StaticPool.Pool.ShareOne | include/stream-client/stream/detail/static_allocator.hpp:19-23 | Adds one reference and nothing else; performs the run's copying step. |
| StaticPool.Pool.DestroyOne | include/stream-client/stream/detail/static_allocator.hpp:25-32 | Removes one reference, releasing the memory with the last; performs the run's destruction step. |

## Left out

- Boost.Asio, Beast and OpenSSL internals: completions, short transfers, serializer and parser are arbitrary outcomes with the stated contracts.
- The destructors of pool and connector and the stop flags of their threads: runs end at any point instead.
- The C++ memory model: atomics and mutex sections are atomic steps.
- `connect_until`, DNS queries, socket options, certificates: I/O plumbing whose outcome is a parameter.
- The datagram socket and the `try_again` retry of the TCP `send` and `receive`: copies of the modelled loops that run without a timer.
- Moving `timed_base` objects, the default-constructed allocator and allocator equality.
- Real-time promises such as "returns by the deadline": the code does not enforce them.
- Rounding of the random factor in floating point: the factor is an arbitrary rational in [0, 1], scaled and truncated.
- Pointer arithmetic past the arena in `alloc`: offsets are unbounded integers.
- The logger, examples, build scripts and test servers: no hard property.
- PoolFill.ConservativeFillConverges: speaks of completed refills; that a refill ends at all depends on the network.
- ConnectionPool.Pool.GetSession: what other threads do while the call waits is given by a list of wake-ups; the interleaving itself is in the protocol, and `PoolCalls.CallAnswers` connects the two.
- Connector.BaseConnector.NewSession: the object's call runs undisturbed; calls interleaved with the resolver are in the protocol.
- ConnectorProtocol.FailedCallWaitsForResolver: the connector protocol has no clock; a call's deadline is any point at which it gives up waiting.
