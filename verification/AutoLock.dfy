/** The idle auto-lock: what it does over whole runs of activity, ticks, lock requests and
    unlocks. Times and timeouts are nanoseconds. */
module AutoLock {
  import opened Wrappers

  type Instant = nat
  type Duration = nat

  datatype LockState = Active | Expired | Locked
  datatype OsLockReason = Sigstop | Screensaver | Sleep | Manual
  datatype SecurityEvent = Activity | OsLock(reason: OsLockReason) | ManualLock

  // What the controller holds; `queue` is what its channel holds.
  datatype Controller = Controller(
    timeout: Duration, state: LockState, last: Option<Instant>, queue: seq<SecurityEvent>)

  // One call by the frontend, or one event sent by a source.
  datatype Op = Register(now: Instant) | Tick(now: Instant) | LockNow | Unlock(now: Instant) | Send(event: SecurityEvent)

  function Since(now: Instant, last: Instant): Duration {
    if now < last then 0 else now - last
  }

  function Registered(c: Controller, now: Instant): Controller {
    if c.state.Locked? then c else c.(state := Active, last := Some(now))
  }

  function Drained(c: Controller, events: seq<SecurityEvent>, now: Instant): Controller
    decreases |events|
  {
    if events == [] then c
    else Drained(if events[0].Activity? then Registered(c, now) else c.(state := Locked), events[1..], now)
  }

  function IdleChecked(c: Controller, now: Instant): Controller {
    match c.state
    case Active =>
      if c.last.Some? && Since(now, c.last.value) >= c.timeout then c.(state := Expired) else c
    case Expired => c.(state := Locked)
    case Locked => c
  }

  function Step(c: Controller, op: Op): Controller {
    match op
    case Register(now) => Registered(c, now)
    case Tick(now) => IdleChecked(Drained(c, c.queue, now).(queue := []), now)
    case LockNow => c.(state := Locked)
    case Unlock(now) => c.(state := Active, last := Some(now))
    case Send(event) => c.(queue := c.queue + [event])
  }

  function After(c: Controller, ops: seq<Op>): Controller
    decreases |ops|
  {
    if ops == [] then c else Step(After(c, ops[..|ops| - 1]), ops[|ops| - 1])
  }

  predicate IsLockRequest(event: SecurityEvent) {
    !event.Activity?
  }

  /* ------------------------------ Draining ------------------------------ */

  // A drain that meets a lock request locks, wherever in the queue it stands.
  lemma {:induction false} DrainLocks(c: Controller, events: seq<SecurityEvent>, now: Instant)
    ensures Drained(c, events, now).state.Locked?
            <==> c.state.Locked? || exists k :: 0 <= k < |events| && IsLockRequest(events[k])
    ensures Drained(c, events, now).timeout == c.timeout && Drained(c, events, now).queue == c.queue
    ensures c.state.Locked? ==> Drained(c, events, now).last == c.last
    ensures !Drained(c, events, now).state.Locked? && events != [] ==>
              Drained(c, events, now).state.Active? && Drained(c, events, now).last == Some(now)
    decreases |events|
  {
    if events != [] {
      var next := if events[0].Activity? then Registered(c, now) else c.(state := Locked);
      DrainLocks(next, events[1..], now);
      assert forall k :: 1 <= k < |events| ==> events[1..][k - 1] == events[k];
    }
  }

  lemma {:induction false} AfterAppend(c: Controller, ops: seq<Op>, more: seq<Op>)
    ensures After(c, ops + more) == After(After(c, ops), more)
    decreases |more|
  {
    if more == [] {
      assert ops + more == ops;
    } else {
      AfterAppend(c, ops, more[..|more| - 1]);
      assert (ops + more)[..|ops + more| - 1] == ops + more[..|more| - 1];
    }
  }

  /* ------------------------------ Whole runs ------------------------------ */

  predicate NoUnlock(ops: seq<Op>) {
    forall k :: 0 <= k < |ops| ==> !ops[k].Unlock?
  }

  /** Locked stays locked until `unlock`, whatever else happens. */
  lemma {:induction false} LockedUntilUnlock(c: Controller, ops: seq<Op>)
    requires c.state.Locked? && NoUnlock(ops)
    ensures After(c, ops).state.Locked? && After(c, ops).last == c.last
    decreases |ops|
  {
    if ops != [] {
      var before := ops[..|ops| - 1];
      assert forall k :: 0 <= k < |before| ==> before[k] == ops[k];
      LockedUntilUnlock(c, before);
      if ops[|ops| - 1].Tick? {
        DrainLocks(After(c, before), After(c, before).queue, ops[|ops| - 1].now);
      }
    }
  }

  predicate NoTick(ops: seq<Op>) {
    forall k :: 0 <= k < |ops| ==> !ops[k].Tick?
  }

  lemma {:induction false} QueueGrows(c: Controller, ops: seq<Op>)
    requires NoTick(ops)
    ensures c.queue <= After(c, ops).queue
    decreases |ops|
  {
    if ops != [] {
      assert forall k :: 0 <= k < |ops| - 1 ==> ops[..|ops| - 1][k] == ops[k];
      QueueGrows(c, ops[..|ops| - 1]);
    }
  }

  /** No lock request is ever lost: the next tick after one is sent ends Locked, whatever was
      called or sent in between, an unlock included; and it stays so until an unlock. */
  lemma LockRequestIsHonoured(
      c: Controller, request: SecurityEvent, between: seq<Op>, now: Instant, later: seq<Op>)
    requires IsLockRequest(request) && NoTick(between) && NoUnlock(later)
    ensures After(c, [Send(request)] + between + [Tick(now)] + later).state.Locked?
  {
    AfterOne(c, Send(request));
    var sent := After(c, [Send(request)]);
    assert sent.queue[|c.queue|] == request;
    AfterAppend(c, [Send(request)], between);
    QueueGrows(sent, between);
    var ready := After(c, [Send(request)] + between);
    assert ready.queue[|c.queue|] == request;
    DrainLocks(ready, ready.queue, now);
    AfterAppend(c, [Send(request)] + between, [Tick(now)]);
    AfterOne(ready, Tick(now));
    var ticked := Step(ready, Tick(now));
    LockedUntilUnlock(ticked, later);
    AfterAppend(c, [Send(request)] + between + [Tick(now)], later);
  }

  lemma AfterOne(c: Controller, op: Op)
    ensures After(c, [op]) == Step(c, op)
  {
    assert [op][..0] == [];
  }

  /* ------------------------------ Idle locking ------------------------------ */

  predicate Overdue(c: Controller, now: Instant) {
    c.last.Some? && now >= c.last.value + c.timeout
  }

  // Why a step locks: it was asked to, or it is the tick after the warning.
  predicate LockCause(c: Controller, op: Op) {
    || op.LockNow?
    || (op.Tick? && exists k :: 0 <= k < |c.queue| && IsLockRequest(c.queue[k]))
    || (op.Tick? && c.state.Expired? && c.queue == [])
  }

  /** One step, both ways: it locks exactly for such a cause, and it warns exactly when it is a
      tick, nothing is queued, and the deadline has passed. A tick never goes from Active to
      Locked on idleness alone. */
  lemma StepLocksExactly(c: Controller, op: Op)
    requires !c.state.Locked? && c.timeout > 0
    ensures Step(c, op).state.Locked? <==> LockCause(c, op)
    ensures Step(c, op).state.Expired? && !(c.state.Expired? && op.Send?)
            <==> op.Tick? && c.state.Active? && c.queue == [] && Overdue(c, op.now)
  {
    if op.Tick? {
      DrainLocks(c, c.queue, op.now);
    }
  }

  lemma {:induction false} TimeoutStays(c: Controller, ops: seq<Op>)
    ensures After(c, ops).timeout == c.timeout
    decreases |ops|
  {
    if ops != [] {
      var before := After(c, ops[..|ops| - 1]);
      TimeoutStays(c, ops[..|ops| - 1]);
      if ops[|ops| - 1].Tick? {
        DrainLocks(before, before.queue, ops[|ops| - 1].now);
      }
    }
  }

  // Step `k` of the run warned: the deadline had passed, and only sends follow up to `end`.
  predicate WarnedAt(c: Controller, ops: seq<Op>, k: nat, end: nat) {
    && k < end <= |ops| && ops[k].Tick?
    && After(c, ops[..k]).state.Active? && Overdue(After(c, ops[..k]), ops[k].now)
    && forall m :: k < m < end ==> ops[m].Send?
  }

  /** The warning is never early: a run that ends Expired ticked after the deadline, and nothing
      but sends came after that tick. */
  lemma {:induction false} WarningIsDue(c: Controller, ops: seq<Op>)
    requires c.timeout > 0 && !c.state.Expired? && After(c, ops).state.Expired?
    ensures exists k: nat :: WarnedAt(c, ops, k, |ops|)
    decreases |ops|
  {
    var n := |ops| - 1;
    var before := After(c, ops[..n]);
    TimeoutStays(c, ops[..n]);
    if before.state.Locked? {
      LockedStep(before, ops[n]);
    } else {
      StepLocksExactly(before, ops[n]);
      if before.state.Expired? && ops[n].Send? {
        WarningIsDue(c, ops[..n]);
        var k: nat :| WarnedAt(c, ops[..n], k, n);
        assert ops[..n][..k] == ops[..k];
        assert WarnedAt(c, ops, k, |ops|);
      } else {
        assert WarnedAt(c, ops, n, |ops|);
      }
    }
  }

  lemma LockedStep(c: Controller, op: Op)
    requires c.state.Locked?
    ensures Step(c, op).state.Locked? || op.Unlock?
  {
    if op.Tick? {
      DrainLocks(c, c.queue, op.now);
    }
  }

  // Step `k` locked, and nothing unlocked since.
  predicate LockedAt(c: Controller, ops: seq<Op>, k: nat) {
    && k < |ops| && !After(c, ops[..k]).state.Locked? && LockCause(After(c, ops[..k]), ops[k])
    && NoUnlock(ops[k..])
  }

  ghost predicate Caused(c: Controller, ops: seq<Op>, k: nat) {
    LockedAt(c, ops, k) && (After(c, ops[..k]).state.Expired? ==> exists j: nat :: WarnedAt(c, ops, j, k))
  }

  lemma WarnedLater(c: Controller, ops: seq<Op>, j: nat, k: nat, n: nat)
    requires n <= |ops| && WarnedAt(c, ops[..n], j, k)
    ensures WarnedAt(c, ops, j, k)
  {
    assert ops[..n][..j] == ops[..j];
  }

  lemma CausedLater(c: Controller, ops: seq<Op>, k: nat)
    requires ops != [] && Caused(c, ops[..|ops| - 1], k) && !ops[|ops| - 1].Unlock?
    ensures Caused(c, ops, k)
  {
    var n := |ops| - 1;
    assert ops[..n][..k] == ops[..k];
    assert ops[k..] == ops[..n][k..] + [ops[n]];
    if After(c, ops[..k]).state.Expired? {
      var j: nat :| WarnedAt(c, ops[..n], j, k);
      WarnedLater(c, ops, j, k, n);
    }
  }

  /** Nothing locks without a cause: a run from Active that ends Locked was asked to lock, or
      ticked twice, the first time after the deadline, with nothing but sends in between. */
  lemma {:induction false} LockHasCause(c: Controller, ops: seq<Op>)
    requires c.timeout > 0 && c.state.Active? && After(c, ops).state.Locked?
    ensures exists k: nat :: Caused(c, ops, k)
    decreases |ops|
  {
    var n := |ops| - 1;
    var before := After(c, ops[..n]);
    TimeoutStays(c, ops[..n]);
    if before.state.Locked? {
      LockHasCause(c, ops[..n]);
      var k: nat :| Caused(c, ops[..n], k);
      if ops[n].Unlock? {
        assert false;
      }
      CausedLater(c, ops, k);
    } else {
      StepLocksExactly(before, ops[n]);
      assert LockedAt(c, ops, n);
      if before.state.Expired? {
        WarningIsDue(c, ops[..n]);
        var j: nat :| WarnedAt(c, ops[..n], j, n);
        WarnedLater(c, ops, j, n, n);
      }
      assert Caused(c, ops, n);
    }
  }

  // Nobody is there: ticks, and lock requests at most.
  predicate Idle(ops: seq<Op>) {
    forall k :: 0 <= k < |ops| ==> ops[k].Tick? || (ops[k].Send? && IsLockRequest(ops[k].event)) || ops[k].LockNow?
  }

  function LateTicks(ops: seq<Op>, deadline: Instant): nat
    decreases |ops|
  {
    if ops == [] then 0
    else
      LateTicks(ops[..|ops| - 1], deadline)
      + if ops[|ops| - 1].Tick? && ops[|ops| - 1].now >= deadline then 1 else 0
  }

  predicate OnlyLockRequests(queue: seq<SecurityEvent>) {
    forall k :: 0 <= k < |queue| ==> IsLockRequest(queue[k])
  }

  /** The lock is never late: without activity, the first tick at or after the deadline leaves
      Active and the second ends Locked. */
  lemma {:induction false} TwoLateTicksLock(c: Controller, ops: seq<Op>)
    requires c.last.Some? && OnlyLockRequests(c.queue) && Idle(ops)
    ensures var c', late := After(c, ops), LateTicks(ops, c.last.value + c.timeout);
            && c'.timeout == c.timeout && c'.last == c.last && OnlyLockRequests(c'.queue)
            && (late >= 1 ==> !c'.state.Active?)
            && (late >= 2 ==> c'.state.Locked?)
    decreases |ops|
  {
    if ops != [] {
      var n := |ops| - 1;
      assert forall k :: 0 <= k < n ==> ops[..n][k] == ops[k];
      TwoLateTicksLock(c, ops[..n]);
      var before := After(c, ops[..n]);
      if ops[n].Tick? {
        DrainLocks(before, before.queue, ops[n].now);
        if before.queue != [] {
          assert IsLockRequest(before.queue[0]);
        }
        DrainKeepsLast(before, before.queue, ops[n].now);
      }
    }
  }

  lemma {:induction false} DrainKeepsLast(c: Controller, events: seq<SecurityEvent>, now: Instant)
    requires OnlyLockRequests(events)
    ensures Drained(c, events, now).last == c.last
    decreases |events|
  {
    if events != [] {
      assert forall k :: 0 <= k < |events| - 1 ==> events[1..][k] == events[k + 1];
      assert IsLockRequest(events[0]);
      DrainKeepsLast(c.(state := Locked), events[1..], now);
    }
  }

  /* ------------------------------ The countdown ------------------------------ */

  function TimeUntilLock(c: Controller, now: Instant): Option<Duration> {
    if !c.state.Active? || c.last.None? then None
    else
      var elapsed := Since(now, c.last.value);
      if elapsed <= c.timeout then Some(c.timeout - elapsed) else None
  }

  /** The countdown is exact: a tick `d` after the reading warns if and only if `d` has reached
      it. It shows zero, and not nothing, at the deadline itself. */
  lemma CountdownIsExact(c: Controller, now: Instant, d: Duration)
    requires c.state.Active? && c.last.Some? && c.last.value <= now && c.queue == []
    ensures Step(c, Tick(now + d)).state.Expired? <==> TimeUntilLock(c, now).None? || d >= TimeUntilLock(c, now).value
    ensures now == c.last.value + c.timeout ==> TimeUntilLock(c, now) == Some(0)
  {
  }

  /** Read before the last activity it is early, by exactly how long before. */
  lemma CountdownBeforeActivity(c: Controller, now: Instant, d: Duration)
    requires c.state.Active? && c.last.Some? && now < c.last.value && c.queue == [] && c.timeout > 0
    ensures TimeUntilLock(c, now) == Some(c.timeout)
    ensures Step(c, Tick(now + d)).state.Expired? <==> d >= TimeUntilLock(c, now).value + (c.last.value - now)
  {
  }

  /* ------------------------------ The controller ------------------------------ */

  datatype SecurityError = InvalidAutoLockConfig

  // A zero timeout is refused, and nothing else is.
  function Validate(timeout: Duration): Result<(), SecurityError> {
    if timeout == 0 then Err(InvalidAutoLockConfig) else Ok(())
  }

  class AutoLockController {
    const timeout: Duration
    var state: LockState
    var lastActivity: Option<Instant>
    var queue: seq<SecurityEvent>

    function View(): Controller
      reads this
    {
      Controller(timeout, state, lastActivity, queue)
    }

    static method New(timeout: Duration) returns (r: Result<AutoLockController, SecurityError>)
      ensures r.Ok? <==> timeout > 0
      ensures r.Ok? ==> fresh(r.value) && r.value.View() == Controller(timeout, Active, None, [])
      ensures r.Err? ==> r.error == InvalidAutoLockConfig
    {
      var valid := Validate(timeout);
      if valid.Err? {
        return Err(valid.error);
      }
      var controller := new AutoLockController(timeout);
      return Ok(controller);
    }

    constructor (timeout: Duration)
      requires Validate(timeout).Ok?
      ensures View() == Controller(timeout, Active, None, [])
    {
      this.timeout, state, lastActivity, queue := timeout, Active, None, [];
    }

    method RegisterActivity(now: Instant)
      modifies this
      ensures View() == Step(old(View()), Register(now))
    {
      match state
      case Active =>
        lastActivity := Some(now);
      case Expired =>
        state, lastActivity := Active, Some(now);
      case Locked =>
    }

    // A source pushes an event.
    method Push(event: SecurityEvent)
      modifies this`queue
      ensures View() == Step(old(View()), Send(event))
    {
      queue := queue + [event];
    }

    method LockNow(reason: OsLockReason)
      modifies this`state
      ensures View() == Step(old(View()), Op.LockNow)
    {
      state := Locked;
    }

    method Unlock(now: Instant)
      modifies this`state, this`lastActivity
      ensures View() == Step(old(View()), Op.Unlock(now))
    {
      state, lastActivity := Active, Some(now);
    }

    method Tick(now: Instant) returns (r: LockState)
      modifies this
      ensures View() == Step(old(View()), Op.Tick(now)) && r == state
    {
      while queue != []
        invariant Drained(View(), queue, now).(queue := []) == Drained(old(View()), old(queue), now).(queue := [])
        decreases |queue|
      {
        var event := queue[0];
        QueueIsCarried(View(), queue, now, queue[1..]);
        QueueIsCarried(View().(queue := queue[1..]), queue[1..], now, []);
        queue := queue[1..];
        match event
        case Activity => RegisterActivity(now);
        case OsLock(_) => state := Locked;
        case ManualLock => state := Locked;
      }
      ApplyIdleLogic(now);
      return state;
    }

    method ApplyIdleLogic(now: Instant)
      modifies this`state
      ensures View() == IdleChecked(old(View()), now)
    {
      match state
      case Active =>
        if lastActivity.Some? && Since(now, lastActivity.value) >= timeout {
          state := Expired;
        }
      case Expired =>
        state := Locked;
      case Locked =>
    }
  }

  lemma {:induction false} QueueIsCarried(
      c: Controller, events: seq<SecurityEvent>, now: Instant, queue: seq<SecurityEvent>)
    ensures Drained(c.(queue := queue), events, now) == Drained(c, events, now).(queue := queue)
    decreases |events|
  {
    if events != [] {
      var next := if events[0].Activity? then Registered(c, now) else c.(state := Locked);
      QueueIsCarried(next, events[1..], now, queue);
    }
  }
}
