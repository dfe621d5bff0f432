/** The realtime controller of the mobile client: subscription, connection state and
    reconnect backoff. Display text (`detail`, `label`) is left out. */
module Realtime {
  import opened Wrappers

  datatype State = Offline | Connecting | Live | Reconnecting

  datatype Event =
    | Connected
    | Error(status: Option<int>)
    | Disconnected(status: Option<int>)
    | Message
    | Other

  const MAX_ATTEMPT := 6
  const BASE_DELAY_MS := 1000
  const MAX_DELAY_MS := 30000

  function Pow2(n: nat): nat { if n == 0 then 1 else 2 * Pow2(n - 1) }

  function Min(a: int, b: int): int { if a <= b then a else b }

  /** Backoff before the given attempt, counted from 1. */
  function DelayMs(attempt: nat): nat
    requires attempt >= 1
  {
    Min(MAX_DELAY_MS, BASE_DELAY_MS * Pow2(attempt - 1))
  }

  predicate Rejected(status: Option<int>) { status == Some(401) || status == Some(403) }

  /** The controller's fields; an armed timer carries its delay. */
  datatype Ctl = Ctl(state: State, attempt: nat, timer: Option<nat>, starting: bool, listening: bool, unlisten: bool)

  const RESET := Ctl(Offline, 0, None, false, false, false)

  /** What `start` does before it awaits the command; `called` says whether it gets there. */
  predicate StartCalls(c: Ctl, creds: bool, retry: bool) {
    creds && !c.starting && (c.state != Live || retry)
  }

  function Started(c: Ctl, creds: bool, retry: bool): Ctl {
    if !StartCalls(c, creds, retry) then c
    else c.(starting := true, state := if c.attempt > 0 then Reconnecting else Connecting, listening := false)
  }

  function Marked(c: Ctl): Ctl {
    c.(timer := None, attempt := 0, state := Live, listening := true)
  }

  function Scheduled(c: Ctl, creds: bool): Ctl {
    if !creds || c.timer.Some? then c
    else
      var attempt := Min(c.attempt + 1, MAX_ATTEMPT);
      c.(listening := false, state := Reconnecting, attempt := attempt, timer := Some(DelayMs(attempt)))
  }

  /** The rest of `start`, once the command has replied. */
  function Replied(c: Ctl, creds: bool, ok: bool): Ctl {
    (if ok then c else Scheduled(c, creds)).(starting := false)
  }

  predicate AuthFailure(e: Event) {
    match e
    case Error(status) => Rejected(status)
    case Disconnected(status) => Rejected(status)
    case _ => false
  }

  function Handled(c: Ctl, creds: bool, e: Event): Ctl {
    if AuthFailure(e) then RESET
    else match e
      case Connected => Marked(c)
      case Error(_) => Scheduled(c, creds)
      case Disconnected(_) => Scheduled(c, creds)
      case Message => if c.state != Live then Marked(c) else c
      case Other => c
  }

  /** The store's cloud credentials, which the controller reads through its hooks. */
  class Credentials {
    var held: bool

    constructor (held: bool)
      ensures this.held == held
    {
      this.held := held;
    }
  }

  class CloudRealtime {
    var state: State
    var attempt: nat
    var timer: Option<nat>
    var starting: bool
    var listening: bool
    var unlisten: bool
    const creds: Credentials

    ghost function View(): Ctl
      reads this
    {
      Ctl(state, attempt, timer, starting, listening, unlisten)
    }

    constructor (creds: Credentials)
      ensures View() == RESET && this.creds == creds
    {
      this.creds := creds;
      state, attempt, timer := Offline, 0, None;
      starting, listening, unlisten := false, false, false;
    }

    /** `stop` */
    method Stop()
      modifies this
      ensures View() == RESET
    {
      if timer.Some? {
        timer := None;
      }
      unlisten := false;
      attempt := 0;
      starting := false;
      state := Offline;
      listening := false;
    }

    /** `start` up to its await. */
    method Start(retry: bool) returns (called: bool)
      modifies this
      ensures called == StartCalls(old(View()), creds.held, retry)
      ensures View() == Started(old(View()), creds.held, retry)
    {
      if !creds.held || starting || (state == Live && !retry) {
        return false;
      }
      starting := true;
      state := if attempt > 0 then Reconnecting else Connecting;
      listening := false;
      return true;
    }

    /** `start` after its await. */
    method FinishStart(ok: bool)
      modifies this
      ensures View() == Replied(old(View()), creds.held, ok)
    {
      if !ok {
        ScheduleReconnect();
      }
      starting := false;
    }

    /** `markConnected` */
    method MarkConnected()
      modifies this
      ensures View() == Marked(old(View()))
    {
      if timer.Some? {
        timer := None;
      }
      attempt := 0;
      state := Live;
      listening := true;
    }

    /** `scheduleReconnect` */
    method ScheduleReconnect()
      modifies this
      ensures View() == Scheduled(old(View()), creds.held)
    {
      if !creds.held || timer.Some? {
        return;
      }
      listening := false;
      state := Reconnecting;
      attempt := Min(attempt + 1, MAX_ATTEMPT);
      var delayMs := Min(MAX_DELAY_MS, BASE_DELAY_MS * Pow2(attempt - 1));
      timer := Some(delayMs);
    }

    /** The timer's callback. */
    method TimerFired() returns (called: bool)
      modifies this
      ensures called == StartCalls(old(View()).(timer := None), creds.held, true)
      ensures View() == Started(old(View()).(timer := None), creds.held, true)
    {
      timer := None;
      called := Start(true);
    }

    /** `handle`, with the store's `handleCloudAuthFailure` behind the `onAuthFailure` hook. */
    method Handle(e: Event)
      modifies this, creds
      ensures View() == Handled(old(View()), old(creds.held), e)
      ensures creds.held == (old(creds.held) && !AuthFailure(e))
    {
      match e {
        case Connected => MarkConnected();
        case Error(status) =>
          if Rejected(status) { DropToGate(); } else { ScheduleReconnect(); }
        case Disconnected(status) =>
          if Rejected(status) { DropToGate(); } else { ScheduleReconnect(); }
        case Message =>
          if state != Live { MarkConnected(); }
        case Other =>
      }
    }

    /** `handleCloudAuthFailure` of the store. */
    method DropToGate()
      modifies this, creds
      ensures View() == RESET && !creds.held
    {
      Stop();
      creds.held := false;
    }
  }

  // ---- What every field combination satisfies

  /** Exact relations between state, attempt, timer and the listening flag. */
  predicate Consistent(c: Ctl) {
    && (c.state == Live <==> c.listening)
    && (c.state == Reconnecting <==> c.attempt > 0)
    && c.attempt <= MAX_ATTEMPT
    && (c.timer.Some? ==> c.state == Reconnecting && c.timer.value == DelayMs(c.attempt))
    && (c.starting ==> c.state != Offline)
  }

  lemma {:induction false} Pow2Monotone(a: nat, b: nat)
    requires a <= b
    ensures 1 <= Pow2(a) <= Pow2(b)
    decreases b
  {
    if a < b { Pow2Monotone(a, b - 1); } else if a > 0 { Pow2Monotone(a - 1, b - 1); }
  }

  /** The backoff never shrinks with the attempt and stays between one and thirty seconds. */
  lemma DelayBounds(a: nat, b: nat)
    requires 1 <= a <= b
    ensures BASE_DELAY_MS <= DelayMs(a) <= DelayMs(b) <= MAX_DELAY_MS
  {
    Pow2Monotone(a - 1, b - 1);
  }

  /** The first retry waits one second, each further one twice as long, up to half a minute. */
  lemma DelayDoubles(n: nat)
    requires n >= 1
    ensures DelayMs(1) == 1000
    ensures DelayMs(n + 1) == if 2 * DelayMs(n) < 30000 then 2 * DelayMs(n) else 30000
  {
  }

  lemma {:induction false} DelaysInARow(n: nat)
    requires n >= 1
    ensures DelayMs(n) == (if n == 1 then 1000 else if n == 2 then 2000 else if n == 3 then 4000
                           else if n == 4 then 8000 else if n == 5 then 16000 else 30000)
  {
    if n > 1 {
      DelayDoubles(n - 1);
      DelaysInARow(n - 1);
    }
  }

  /** A token the server rejects (401 or 403) resets the controller. `connected`, and a message while
      not live, make it live without a timer. Any other failure arms one retry, unless one is armed or
      no credentials are held, counting at most six attempts. */
  lemma HandledExactly(c: Ctl, creds: bool, e: Event)
    ensures var v := Handled(c, creds, e);
      match e
      case Connected => v == Ctl(Live, 0, None, c.starting, true, c.unlisten)
      case Message => v == if c.state == Live then c else Ctl(Live, 0, None, c.starting, true, c.unlisten)
      case Other => v == c
      case Error(status) => Failed(c, creds, status, v)
      case Disconnected(status) => Failed(c, creds, status, v)
  {
  }

  predicate Failed(c: Ctl, creds: bool, status: Option<int>, v: Ctl) {
    if status.Some? && (status.value == 401 || status.value == 403) then v == Ctl(Offline, 0, None, false, false, false)
    else RetryArmed(c, creds, v)
  }

  /** A retry is armed for the next attempt, or nothing changes. */
  predicate RetryArmed(c: Ctl, creds: bool, v: Ctl) {
    if !creds || c.timer.Some? then v == c
    else
      var attempt: nat := if c.attempt < 6 then c.attempt + 1 else 6;
      v == Ctl(Reconnecting, attempt, Some(DelayMs(attempt)), c.starting, false, c.unlisten)
  }

  /** A start goes ahead with credentials held, none in flight, and not live unless it is a retry. */
  lemma StartedExactly(c: Ctl, creds: bool, retry: bool)
    ensures StartCalls(c, creds, retry) <==> creds && !c.starting && (c.state == Live ==> retry)
    ensures Started(c, creds, retry) ==
      if creds && !c.starting && (c.state == Live ==> retry)
      then Ctl(if c.attempt == 0 then Connecting else Reconnecting, c.attempt, c.timer, true, false, c.unlisten)
      else c
  {
  }

  /** Its reply clears `starting`; a failure also arms a retry. */
  lemma RepliedExactly(c: Ctl, creds: bool, ok: bool)
    ensures var v := Replied(c, creds, ok);
      && !v.starting
      && (ok ==> v == c.(starting := false))
      && (!ok ==> RetryArmed(c.(starting := false), creds, v))
  {
  }

  /** Every operation keeps the fields consistent; hence an armed timer never meets a live
      stream, and a retry never restarts one. */
  lemma OperationsKeepConsistent(c: Ctl, creds: bool, retry: bool, ok: bool, e: Event)
    requires Consistent(c)
    ensures Consistent(RESET) && Consistent(Marked(c)) && Consistent(Scheduled(c, creds))
    ensures Consistent(Replied(c, creds, ok)) && Consistent(Handled(c, creds, e))
    ensures Consistent(Started(c.(timer := None), creds, retry))
    ensures c.timer.None? ==> Consistent(Started(c, creds, retry))
    ensures !retry ==> Consistent(Started(c, creds, retry))
  {
    DelayBounds(1, c.attempt + 1);
  }
}
