/**
  Deadlines. One timer and its self-reposting callback guard every blocking operation of a socket; an
  expiration token arms the timer and disarms it when it goes out of scope; the callback and the
  completion handlers run one at a time on the socket's event loop. A TLS operation holds a token of
  its own while it drives TCP operations underneath.
 */
module TimedBase {
  import opened Common

  /** Durations shorter than this are refused: 1 microsecond in clock ticks. */
  const RESOLUTION: int := 1000

  /** When the timer goes off; `Never` is the far end of the clock. */
  datatype Expiry = Never | At(time: Time)

  /** `timeout_or_deadline`: a duration, the infinite duration, or a point in time. */
  datatype Limit = For(ticks: int) | Forever | Until(deadline: Time)

  /** An `expiration`: with a null timer pointer, or with the deadline it has armed. */
  datatype Token = Inert | Armed(deadline: Time)

  // ------------------------------------------------------------------------------------------
  // The timer object

  /**
    `waiting` counts the callbacks registered with the timer and `queued` those handed to the event
    loop, whether because the timer went off or because its expiry was changed.
   */
  datatype Timer = Timer(expiry: Expiry, waiting: nat, queued: nat, fired: bool, open: bool)

  /** `expires_at` / `expires_from_now`: pending waits are cancelled, which queues their callbacks. */
  function SetExpiry(t: Timer, e: Expiry): Timer {
    t.(expiry := e, queued := t.queued + t.waiting, waiting := 0)
  }

  /** Does `scope_expire` throw for this limit? */
  predicate Refused(limit: Limit) {
    limit.For? && limit.ticks < RESOLUTION
  }

  /** A duration counts from now, a deadline is taken as it is, and the infinite duration arms nothing. */
  function TokenFor(limit: Limit, now: Time): Token
    requires !Refused(limit)
  {
    match limit
    case For(ticks) => Armed(now + ticks)
    case Forever => Inert
    case Until(deadline) => Armed(deadline)
  }

  /** `scope_expire`: the flag is reset even when the duration is then refused. */
  function ScopeExpire(t: Timer, limit: Limit, now: Time): Timer {
    var t' := t.(fired := false);
    if Refused(limit) then t'
    else match TokenFor(limit, now)
         case Inert => t'
         case Armed(deadline) => SetExpiry(t', At(deadline))
  }

  /** The destructor of a token. */
  function Release(t: Timer, token: Token): Timer {
    if token.Armed? then SetExpiry(t, Never) else t
  }

  predicate Overdue(t: Timer, now: Time) {
    t.expiry.At? && t.expiry.time <= now
  }

  /** The timer goes off: the event loop queues the callback. */
  function GoOff(t: Timer): Timer {
    t.(queued := t.queued + t.waiting, waiting := 0)
  }

  /** `check_deadline`, taken from the queue: act if overdue, then wait again. */
  function CheckDeadline(t: Timer, now: Time): Timer
    requires 0 < t.queued
  {
    var t' := t.(queued := t.queued - 1);
    var t'' := if Overdue(t, now) then SetExpiry(t'.(open := false, fired := true), Never) else t';
    t''.(waiting := t''.waiting + 1)
  }

  /** What one `run_one` of a blocking operation meets: the timer at some time, or the completion. */
  datatype Event = TimerEvent(at: Time) | Completion(bytes: nat, error: nat)

  /** The result of a blocking operation: refused by throwing, still running, or completed. */
  datatype Verdict = Threw | Running | Late(bytes: nat) | Ended(bytes: nat, error: nat)

  /** Some timer event happened no earlier than the deadline. */
  ghost predicate Struck(deadline: Time, events: seq<Event>) {
    exists i :: 0 <= i < |events| && events[i].TimerEvent? && deadline <= events[i].at
  }

  /** The expiry that guards an operation: its own, or the one already set if its limit is infinite. */
  function Guard(present: Expiry, limit: Limit, now: Time): Expiry
    requires !Refused(limit)
  {
    if limit.Forever? then present else At(TokenFor(limit, now).deadline)
  }

  class TimedSocket {
    var expiry: Expiry
    var waiting: nat
    var queued: nat
    var fired: bool
    var open: bool

    ghost function View(): Timer
      reads this
    {
      Timer(expiry, waiting, queued, fired, open)
    }

    constructor ()
      ensures View() == Timer(Never, 1, 0, false, true)
    {
      expiry, fired, open := Never, false, true;
      waiting, queued := 1, 0;
    }

    method ChangeExpiry(e: Expiry)
      modifies this
      ensures View() == SetExpiry(old(View()), e)
    {
      expiry := e;
      queued, waiting := queued + waiting, 0;
    }

    /** Returns no token when it throws. */
    method Expire(limit: Limit, now: Time) returns (token: Option<Token>)
      modifies this
      ensures View() == ScopeExpire(old(View()), limit, now)
      ensures token == if Refused(limit) then None else Some(TokenFor(limit, now))
      ensures token.None? <==> limit.For? && limit.ticks < 1000
      ensures !fired && open == old(open) && waiting + queued == old(waiting) + old(queued)
      ensures limit.For? && 1000 <= limit.ticks ==>
        expiry == At(now + limit.ticks) && token == Some(Armed(now + limit.ticks)) && waiting == 0
      ensures limit.Until? ==> expiry == At(limit.deadline) && token == Some(Armed(limit.deadline)) && waiting == 0
      ensures limit.Forever? || token.None? ==> expiry == old(expiry) && waiting == old(waiting)
      ensures limit.Forever? ==> token == Some(Inert)
    {
      fired := false;
      match limit
      case For(ticks) =>
        if ticks < RESOLUTION {
          return None;
        }
        ChangeExpiry(At(now + ticks));
        token := Some(Armed(now + ticks));
      case Forever =>
        token := Some(Inert);
      case Until(deadline) =>
        ChangeExpiry(At(deadline));
        token := Some(Armed(deadline));
    }

    method Drop(token: Token)
      modifies this
      ensures View() == Release(old(View()), token)
      ensures token.Armed? ==> expiry.Never? && waiting == 0
      ensures token.Inert? ==> expiry == old(expiry) && waiting == old(waiting)
      ensures fired == old(fired) && open == old(open) && waiting + queued == old(waiting) + old(queued)
    {
      if token.Armed? {
        ChangeExpiry(Never);
      }
    }

    method RunCallback(now: Time)
      requires 0 < queued
      modifies this
      ensures View() == CheckDeadline(old(View()), now)
      ensures waiting + queued == old(waiting) + old(queued) && 0 < waiting
      ensures if old(expiry).At? && old(expiry).time <= now then !open && fired && expiry.Never?
              else open == old(open) && fired == old(fired) && expiry == old(expiry)
    {
      queued := queued - 1;
      if expiry.At? && expiry.time <= now {
        open := false;
        fired := true;
        ChangeExpiry(Never);
      }
      waiting := waiting + 1;
    }

    /** The event loop turns to the timer: it goes off if it is due, and a queued callback runs. */
    method RunTimer(now: Time)
      requires waiting + queued == 1
      modifies this
      ensures waiting + queued == 1
      ensures if old(expiry).At? && old(expiry).time <= now then !open && fired && expiry.Never?
              else open == old(open) && fired == old(fired) && expiry == old(expiry)
    {
      if queued == 0 && expiry.At? && expiry.time <= now {
        queued, waiting := queued + waiting, 0;
      }
      if 0 < queued {
        RunCallback(now);
      }
    }

    /**
      `write_some` / `read_some`: arm the timer, start the operation and run the event loop until the
      completion handler has run. `events` is what the loop meets; it uses them up to the completion.
      The operation is late exactly if the timer's callback ran before the completion at a time not
      before the deadline that guards it: its own, or under an infinite limit that of the TLS operation
      around it, which then stays set until it strikes.
     */
    method Operate(limit: Limit, start: Time, events: seq<Event>) returns (verdict: Verdict, used: nat)
      requires waiting + queued == 1
      modifies this
      ensures used <= |events| && waiting + queued == 1
      ensures forall i :: 0 <= i < used ==> !events[i].Completion?
      ensures verdict.Threw? <==> limit.For? && limit.ticks < 1000
      ensures verdict.Running? ==> used == |events|
      ensures verdict.Late? || verdict.Ended? ==>
        && used < |events| && events[used].Completion?
        && expiry == if limit.Forever? && verdict.Ended? then old(expiry) else Never
      ensures verdict.Late? ==> verdict.bytes == events[used].bytes
      ensures verdict.Ended? ==> events[used] == Completion(verdict.bytes, verdict.error)
      ensures verdict.Late? || verdict.Ended? ==>
        (verdict.Late? <==>
           exists i :: 0 <= i < used && events[i].TimerEvent? &&
             match limit
             case For(ticks) => start + ticks <= events[i].at
             case Until(deadline) => deadline <= events[i].at
             case Forever => old(expiry).At? && old(expiry).time <= events[i].at)
      ensures verdict.Late? ==> !open
      ensures verdict.Ended? ==> open == old(open)
    {
      var token := Expire(limit, start);
      used := 0;
      if token.None? {
        return Threw, 0;
      }
      ghost var guard := Guard(old(expiry), limit, start);
      while used < |events|
        invariant 0 <= used <= |events| && waiting + queued == 1
        invariant forall i :: 0 <= i < used ==> !events[i].Completion?
        invariant expiry == if fired then Never else guard
        invariant fired <==> guard.At? && Struck(guard.time, events[..used])
        invariant open == (old(open) && !fired)
      {
        assert events[..used + 1] == events[..used] + [events[used]];
        match events[used] {
          case TimerEvent(now) => RunTimer(now);
          case Completion(bytes, error) =>
            verdict := if fired then Late(bytes) else Ended(bytes, error);
            Drop(token.value);
            return;
        }
        used := used + 1;
      }
      verdict := Running;
    }
  }

  // ------------------------------------------------------------------------------------------
  // The event loop

  /** A TCP operation: its token, its completion if the handler is queued, and whether it was struck. */
  datatype Op = Op(token: Token, completed: bool, struck: bool)

  /** A TLS operation around TCP operations: its token and the saved timeout mode. */
  datatype Tls = Tls(token: Token, savedMode: bool)

  /** What a completion handler reports: the deadline fired, or the operation's own outcome. */
  datatype Report = NoReport | TimedOut | Finished

  /**
    `mode` and `ioTimeout` are the socket's default timeout settings; `hit` records whether the timer
    has struck under the token that is in force.
   */
  datatype Loop = Loop(
    now: Time,
    timer: Timer,
    mode: bool,
    ioTimeout: Limit,
    tls: Option<Tls>,
    op: Option<Op>,
    hit: bool,
    report: Report)

  datatype Label =
    | Tick(ticks: nat)
    | TimerGoesOff
    | Callback
    | BeginOp(limit: Limit)
    | Complete
    | Handler
    | EnterTls(limit: Limit)
    | ExitTls
    | SetMode(on: bool)

  /** The default limit of an operation started without one. */
  function DefaultLimit(s: Loop): Limit {
    if s.mode then s.ioTimeout else Forever
  }

  /** The deadline in force: the one armed by the TLS operation, else by the TCP operation. */
  function InForce(s: Loop): Option<Time> {
    if s.tls.Some? && s.tls.value.token.Armed? then Some(s.tls.value.token.deadline)
    else if s.op.Some? && s.op.value.token.Armed? then Some(s.op.value.token.deadline)
    else None
  }

  /** The step with label `l` from `s`, or None when it is not enabled. */
  function Next(s: Loop, l: Label): Option<Loop> {
    match l
    case Tick(ticks) => Some(s.(now := s.now + ticks))
    case TimerGoesOff =>
      if 0 < s.timer.waiting && Overdue(s.timer, s.now) then Some(s.(timer := GoOff(s.timer))) else None
    case Callback =>
      if !s.op.Some? || s.timer.queued == 0 then None
      else
        var strikes := Overdue(s.timer, s.now);
        Some(s.(timer := CheckDeadline(s.timer, s.now),
                hit := s.hit || strikes,
                op := Some(s.op.value.(struck := s.op.value.struck || strikes))))
    case BeginOp(limit) =>
      if s.op.Some? || (s.tls.Some? && limit != DefaultLimit(s)) then None
      else if Refused(limit) then Some(s.(timer := ScopeExpire(s.timer, limit, s.now), report := NoReport))
      else Some(s.(timer := ScopeExpire(s.timer, limit, s.now),
                   op := Some(Op(TokenFor(limit, s.now), false, false)),
                   hit := s.hit && s.tls.Some?,
                   report := NoReport))
    case Complete =>
      if s.op.Some? && !s.op.value.completed then Some(s.(op := Some(s.op.value.(completed := true)))) else None
    case Handler =>
      if !s.op.Some? || !s.op.value.completed then None
      else Some(s.(timer := Release(s.timer, s.op.value.token),
                   op := None,
                   hit := s.hit && s.tls.Some?,
                   report := if s.timer.fired then TimedOut else Finished))
    case EnterTls(limit) =>
      if s.op.Some? || s.tls.Some? then None
      else if Refused(limit) then Some(s.(mode := false, timer := ScopeExpire(s.timer, limit, s.now)))
      else Some(s.(mode := false,
                   timer := ScopeExpire(s.timer, limit, s.now),
                   tls := Some(Tls(TokenFor(limit, s.now), s.mode)),
                   hit := false))
    case ExitTls =>
      if s.op.Some? || s.tls.None? then None
      else Some(s.(mode := s.tls.value.savedMode,
                   timer := Release(s.timer, s.tls.value.token),
                   tls := None,
                   hit := false))
    case SetMode(on) => if s.op.Some? || s.tls.Some? then None else Some(s.(mode := on))
  }

  ghost predicate Step(s: Loop, l: Label, t: Loop) {
    Next(s, l) == Some(t)
  }

  ghost predicate Init(s: Loop) {
    s.timer == Timer(Never, 1, 0, false, true) && s.tls.None? && s.op.None? && !s.hit && s.report.NoReport?
  }

  ghost predicate ReachedIn(n: nat, s: Loop) {
    if n == 0 then Init(s) else exists p, l :: ReachedIn(n - 1, p) && Step(p, l, s)
  }

  ghost predicate Reachable(s: Loop) {
    exists n: nat :: ReachedIn(n, s)
  }

  // ------------------------------------------------------------------------------------------
  // The invariant

  ghost predicate Inv(s: Loop) {
    && s.timer.waiting + s.timer.queued == 1
    && (s.tls.Some? ==> !s.mode && (s.op.Some? ==> s.op.value.token.Inert?))
    && (match InForce(s)
        case None => s.timer.expiry.Never? && !s.hit
        case Some(d) => s.timer.expiry == (if s.hit then Never else At(d)) && (s.hit ==> d <= s.now))
    && (s.op.Some? ==> s.timer.fired == s.op.value.struck && (s.op.value.struck ==> s.hit))
    && (s.tls.None? ==> s.hit == (s.op.Some? && s.op.value.struck))
  }

  lemma Kept(s: Loop, l: Label, t: Loop)
    requires Inv(s) && Step(s, l, t)
    ensures Inv(t)
  {
  }

  lemma {:induction false} ReachedInv(n: nat, s: Loop)
    requires ReachedIn(n, s)
    ensures Inv(s)
  {
    hide Next;
    if n != 0 {
      var p, l :| ReachedIn(n - 1, p) && Step(p, l, s);
      ReachedInv(n - 1, p);
      Kept(p, l, s);
    }
  }

  lemma ReachableInv(s: Loop)
    requires Reachable(s)
    ensures Inv(s)
  {
    hide ReachedIn;
    var n: nat :| ReachedIn(n, s);
    ReachedInv(n, s);
  }

  // ------------------------------------------------------------------------------------------
  // Theorems

  /** In every reachable state exactly one deadline callback is outstanding, waiting or queued. */
  lemma OneCallbackOutstanding(s: Loop)
    requires Reachable(s)
    ensures s.timer.waiting + s.timer.queued == 1
  {
    ReachableInv(s);
  }

  /**
    A callback closes the socket only if the deadline now in force has passed. One that was queued for
    an earlier operation therefore never strikes a later one before that one's own deadline.
   */
  lemma StrikesOnlyWhenDue(s: Loop, t: Loop)
    requires Reachable(s) && Step(s, Callback, t)
    ensures (s.timer.open && !t.timer.open) || (!s.timer.fired && t.timer.fired) ==>
      InForce(s).Some? && InForce(s).value <= s.now && s.timer.expiry == At(InForce(s).value)
    ensures InForce(s).Some? && s.now < InForce(s).value ==> t.timer.expiry == s.timer.expiry && !t.timer.fired
  {
    ReachableInv(s);
  }

  /**
    And it does strike when that deadline has passed: unless it has struck before, the callback closes the
    socket, marks the operation under way as struck and disarms the timer.
   */
  lemma DueCallbackStrikes(s: Loop, t: Loop)
    requires Reachable(s) && Step(s, Callback, t) && !s.hit
    requires InForce(s).Some? && InForce(s).value <= s.now
    ensures !t.timer.open && t.timer.fired && t.timer.expiry.Never? && t.op.Some? && t.op.value.struck
    ensures t.timer.waiting == 1 && t.timer.queued == 0
  {
    ReachableInv(s);
  }

  /** `t` is reached from `s` by `n` steps, none of which ends the TCP operation. */
  ghost predicate Underway(n: nat, s: Loop, t: Loop) {
    if n == 0 then s == t
    else exists p, l: Label :: Underway(n - 1, s, p) && !l.Handler? && Step(p, l, t)
  }

  lemma {:induction false} UnderwayKeepsOp(n: nat, s: Loop, t: Loop)
    requires Inv(s) && s.op.Some? && Underway(n, s, t)
    ensures Inv(t) && t.op.Some? && t.op.value.token == s.op.value.token && t.tls == s.tls
  {
    hide Next, Inv;
    if n != 0 {
      var p, l: Label :| Underway(n - 1, s, p) && !l.Handler? && Step(p, l, t);
      UnderwayKeepsOp(n - 1, s, p);
      Kept(p, l, t);
      OpStays(p, l, t);
    }
  }

  lemma OpStays(s: Loop, l: Label, t: Loop)
    requires s.op.Some? && !l.Handler? && Step(s, l, t)
    ensures t.op.Some? && t.op.value.token == s.op.value.token && t.tls == s.tls
  {
  }

  /**
    A TCP operation of its own, from its start to its handler, whatever the loop does in between: the timer
    is set to the duration counted from the start, or to the deadline given, until it strikes; the handler
    reports a timeout exactly if it struck, which is never under an infinite limit, and leaves it unset.
   */
  lemma OpTimesOutAtItsDeadline(s: Loop, limit: Limit, t: Loop, n: nat, u: Loop)
    requires Reachable(s) && s.tls.None? && !Refused(limit) && Step(s, BeginOp(limit), t) && Underway(n, t, u)
    ensures limit.For? ==>
      u.timer.expiry == (if u.hit then Never else At(s.now + limit.ticks)) && (u.hit ==> s.now + limit.ticks <= u.now)
    ensures limit.Until? ==>
      u.timer.expiry == (if u.hit then Never else At(limit.deadline)) && (u.hit ==> limit.deadline <= u.now)
    ensures limit.Forever? ==> u.timer.expiry.Never? && !u.hit
    ensures forall v :: Step(u, Handler, v) ==> v.timer.expiry.Never? && (v.report.TimedOut? <==> u.hit)
  {
    ReachableInv(s);
    Kept(s, BeginOp(limit), t);
    UnderwayKeepsOp(n, t, u);
  }

  /**
    A completion handler reports a timeout exactly when the timer struck during that very operation,
    and then the clock had reached the deadline in force; without a deadline it never does.
   */
  lemma TimeoutsAreReal(s: Loop, t: Loop)
    requires Reachable(s) && Step(s, Handler, t)
    ensures t.report.TimedOut? <==> s.op.value.struck
    ensures t.report.TimedOut? ==> InForce(s).Some? && InForce(s).value <= s.now
    ensures t.tls.None? ==> t.timer.expiry.Never?
  {
    ReachableInv(s);
    Kept(s, Handler, t);
  }

  /** `t` is reached from `s` by `n` steps, none of which leaves the TLS operation. */
  ghost predicate Inside(n: nat, s: Loop, t: Loop) {
    if n == 0 then s == t
    else exists p, l: Label :: Inside(n - 1, s, p) && !l.ExitTls? && Step(p, l, t)
  }

  lemma {:induction false} InsideKeepsTls(n: nat, s: Loop, t: Loop)
    requires Inv(s) && s.tls.Some? && Inside(n, s, t)
    ensures Inv(t) && t.tls == s.tls
  {
    hide Next, Inv;
    if n != 0 {
      var p, l: Label :| Inside(n - 1, s, p) && !l.ExitTls? && Step(p, l, t);
      InsideKeepsTls(n - 1, s, p);
      Kept(p, l, t);
      TlsStays(p, l, t);
    }
  }

  lemma TlsStays(s: Loop, l: Label, t: Loop)
    requires s.tls.Some? && !l.ExitTls? && Step(s, l, t)
    ensures t.tls == s.tls
  {
  }

  /**
    During a TLS operation, any number of TCP operations leave the timer set to the duration counted from
    its start, or to the deadline given, until it strikes, none of them with a token of its own; on the way
    out the timer is disarmed and the timeout mode is what it was on the way in.
   */
  lemma TlsDeadlineSurvives(s: Loop, limit: Limit, t: Loop, n: nat, u: Loop)
    requires Reachable(s) && !Refused(limit) && Step(s, EnterTls(limit), t) && Inside(n, t, u)
    ensures limit.For? ==>
      u.timer.expiry == (if u.hit then Never else At(s.now + limit.ticks)) && (u.hit ==> s.now + limit.ticks <= u.now)
    ensures limit.Until? ==>
      u.timer.expiry == (if u.hit then Never else At(limit.deadline)) && (u.hit ==> limit.deadline <= u.now)
    ensures limit.Forever? ==> u.timer.expiry.Never? && !u.hit
    ensures u.op.Some? ==> u.op.value.token.Inert?
    ensures forall v :: Step(u, ExitTls, v) ==> v.mode == s.mode && v.timer.expiry.Never? && v.tls.None?
  {
    ReachableInv(s);
    Kept(s, EnterTls(limit), t);
    InsideKeepsTls(n, t, u);
  }

  /** A whole TLS call: it throws on the way in, or runs and leaves. */
  ghost predicate TlsCall(s: Loop, limit: Limit, v: Loop) {
    if Refused(limit) then Step(s, EnterTls(limit), v)
    else exists t, n: nat, u :: Step(s, EnterTls(limit), t) && Inside(n, t, u) && Step(u, ExitTls, v)
  }

  /**
    A TLS call leaves the timeout mode as it found it if and only if its duration was not refused or the
    mode was off anyway: a refused duration throws after the mode was switched off.
   */
  lemma ModeRestoredIff(s: Loop, limit: Limit, v: Loop)
    requires Reachable(s) && TlsCall(s, limit, v)
    ensures v.mode == s.mode <==> !(limit.For? && limit.ticks < 1000) || !s.mode
    ensures limit.For? && limit.ticks < 1000 ==> DefaultLimit(v) == Forever
  {
    if !Refused(limit) {
      hide Inside, Next, Reachable;
      var t, n: nat, u :| Step(s, EnterTls(limit), t) && Inside(n, t, u) && Step(u, ExitTls, v);
      TlsDeadlineSurvives(s, limit, t, n, u);
    }
  }

  /**
    Why the mode has to be off: an operation nested under a deadline leaves that deadline armed if and
    only if its own limit is infinite. With any other limit, its token disarms the timer for both.
   */
  lemma NestedKeepsOuterIff(timer: Timer, outer: Time, limit: Limit, now: Time, later: Time)
    requires !Refused(limit)
    ensures var armed := ScopeExpire(timer, Until(outer), now);
      Release(ScopeExpire(armed, limit, later), TokenFor(limit, later)).expiry == At(outer) <==> limit.Forever?
  {
  }
}
