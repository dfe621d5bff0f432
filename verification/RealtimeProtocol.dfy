/** The controller together with what it talks to only through messages: start calls in
    flight, the stream task each accepted call spawns, the event listener and the timer.
    One transition system over every interleaving, across any number of sign-ins. */
module RealtimeProtocol {
  import opened Wrappers
  import opened Realtime

  /** A start call: not yet run by the backend, failed or accepted with the reply on its way. */
  datatype Call = Requested | Failing | Accepted

  datatype Phase = Opening | Streaming | Done

  /** A stream task and the events it emitted that were not delivered yet. */
  datatype Stream = Stream(phase: Phase, queue: seq<Event>)

  datatype World = World(
    ctl: Ctl,
    creds: bool,
    handlers: nat,               // registered event handlers; `unlisten` drops only the latest
    listens: nat,                // `listen` calls not resolved yet
    calls: map<nat, Call>,
    streams: map<nat, Stream>,   // keyed by the call that spawned them
    nextId: nat)

  datatype Step =
    | Connect                    // credentials set, then `ensure`
    | ListenResolved             // `ensure` goes on
    | Stop                       // `stop`, credentials cleared
    | RequestReconnect
    | TimerFires
    | CallFails(id: nat)
    | CallAccepted(id: nat)
    | Reply(id: nat)
    | OpenFails(id: nat)
    | BadStatus(id: nat, status: int)
    | Opened(id: nat)
    | Emits(id: nat, e: Event)
    | Ends(id: nat)
    | Deliver(id: nat)

  const INIT := World(RESET, false, 0, 0, map[], map[], 0)

  /** `start`: the controller's part and the call it puts in flight. */
  function Start(w: World, retry: bool): World {
    if StartCalls(w.ctl, w.creds, retry)
    then w.(ctl := Started(w.ctl, w.creds, retry), calls := w.calls[w.nextId := Requested], nextId := w.nextId + 1)
    else w
  }

  function Stopped(w: World): World {
    w.(ctl := RESET, creds := false, handlers := if w.ctl.unlisten && w.handlers > 0 then w.handlers - 1 else w.handlers)
  }

  /** One handler runs. */
  function HandleOnce(w: World, e: Event): World {
    if AuthFailure(e) then Stopped(w) else w.(ctl := Handled(w.ctl, w.creds, e))
  }

  /** Each of `n` registered handlers runs. */
  function HandleBy(w: World, e: Event, n: nat): World
    decreases n
  {
    if n == 0 then w else HandleBy(HandleOnce(w, e), e, n - 1)
  }

  predicate Unfinished(s: Stream) { s.phase != Done || s.queue != [] }

  predicate Enabled(w: World, step: Step) {
    match step
    case Connect => true
    case ListenResolved => w.listens > 0
    case Stop => true
    case RequestReconnect => true
    case TimerFires => w.ctl.timer.Some?
    case CallFails(id) => id in w.calls && w.calls[id] == Requested
    case CallAccepted(id) => id in w.calls && w.calls[id] == Requested
    case Reply(id) => id in w.calls && w.calls[id] != Requested
    case OpenFails(id) => id in w.streams && w.streams[id].phase == Opening
    case BadStatus(id, _) => id in w.streams && w.streams[id].phase == Opening
    case Opened(id) => id in w.streams && w.streams[id].phase == Opening
    case Emits(id, _) => id in w.streams && w.streams[id].phase == Streaming
    case Ends(id) => id in w.streams && w.streams[id].phase == Streaming
    case Deliver(id) => id in w.streams && w.streams[id].queue != []
  }

  function Emit(w: World, id: nat, phase: Phase, events: seq<Event>): World
    requires id in w.streams
  {
    w.(streams := w.streams[id := Stream(phase, w.streams[id].queue + events)])
  }

  function Apply(w: World, step: Step): World
    requires Enabled(w, step)
  {
    match step
    case Connect =>
      if w.ctl.unlisten then Start(w.(creds := true), false)
      else w.(creds := true, listens := w.listens + 1)
    case ListenResolved =>
      Start(w.(listens := w.listens - 1, handlers := w.handlers + 1, ctl := w.ctl.(unlisten := true)), false)
    case Stop => Stopped(w)
    case RequestReconnect => w.(ctl := Scheduled(w.ctl, w.creds))
    case TimerFires => Start(w.(ctl := w.ctl.(timer := None)), true)
    case CallFails(id) => w.(calls := w.calls[id := Failing])
    case CallAccepted(id) =>
      w.(calls := w.calls[id := Accepted], streams := w.streams[id := Stream(Opening, [])])
    case Reply(id) =>
      w.(calls := w.calls - {id}, ctl := Replied(w.ctl, w.creds, w.calls[id] == Accepted))
    case OpenFails(id) => Emit(w, id, Done, [Error(None), Disconnected(None)])
    case BadStatus(id, status) => Emit(w, id, Done, [Disconnected(Some(status))])
    case Opened(id) => Emit(w, id, Streaming, [Connected])
    case Emits(id, e) => Emit(w, id, Streaming, [e])
    case Ends(id) => Emit(w, id, Done, [Disconnected(None)])
    case Deliver(id) =>
      var s := w.streams[id];
      HandleBy(w.(streams := w.streams[id := s.(queue := s.queue[1..])]), s.queue[0], w.handlers)
  }

  // ---- Never stuck

  predicate StreamUnfinished(w: World) { exists id :: id in w.streams && Unfinished(w.streams[id]) }

  /** A call whose outcome will still move the controller. */
  predicate CallOpen(w: World) { exists id :: id in w.calls && w.calls[id] != Accepted }

  /** While signed in: whatever is shown as connecting or reconnecting has something under way
      that will move it on, and a live state has a stream that will still report its end. */
  predicate NotStuck(w: World) {
    w.creds ==>
      && (w.ctl.state == Offline ==> w.listens > 0)
      && (w.ctl.state == Connecting || w.ctl.state == Reconnecting ==>
            w.ctl.timer.Some? || w.listens > 0 || CallOpen(w) || StreamUnfinished(w))
      && (w.ctl.state == Live ==> StreamUnfinished(w))
  }

  /** `start` returns at its `starting` guard and nothing else is under way. */
  predicate LostStart(w: World, step: Step) {
    && w.creds && w.ctl.starting && !CallOpen(w) && !StreamUnfinished(w)
    && ((step == TimerFires && w.listens == 0) || (step == ListenResolved && w.listens == 1 && w.ctl.timer.None?))
  }

  /** Signing in finds the state already live, so `start` returns, but no stream is left. */
  predicate GhostConnect(w: World, step: Step) {
    step == Connect && w.ctl.state == Live && !StreamUnfinished(w)
  }

  predicate Safe(w: World, step: Step) { !LostStart(w, step) && !GhostConnect(w, step) }

  /** Facts of every reachable world. */
  ghost predicate Inv(w: World) {
    && Consistent(w.ctl)
    && (!w.creds ==> !w.ctl.starting && (w.ctl.state == Offline || w.ctl.state == Live))
    && (w.creds && w.ctl.state == Offline ==> w.listens > 0)
    && (w.creds ==> w.ctl.unlisten || w.listens > 0)
    && (w.ctl.unlisten || w.ctl.state == Live ==> w.handlers > 0)
    && (w.ctl.starting ==> w.calls != map[])
    && (forall id :: id in w.streams ==> ClosedByDisconnect(w.streams[id]))
    && (forall id :: id in w.calls || id in w.streams ==> id < w.nextId)
  }

  predicate ClosedByDisconnect(s: Stream) {
    s.phase == Done && s.queue != [] ==> s.queue[|s.queue| - 1].Disconnected?
  }

  /** Handling the same event again changes nothing more, so extra handlers are harmless;
      a rejected token resets the controller however many handlers see it. */
  lemma {:induction false} HandleByEffect(w: World, e: Event, n: nat)
    requires n > 0
    ensures !AuthFailure(e) ==> HandleBy(w, e, n) == HandleOnce(w, e)
    ensures AuthFailure(e) ==>
      var v := HandleBy(w, e, n);
      v == w.(ctl := RESET, creds := false, handlers := v.handlers)
    decreases n
  {
    if n > 1 {
      HandleByEffect(HandleOnce(w, e), e, n - 1);
    }
  }

  /** The world after a delivery, without the recursion over handlers. */
  lemma DeliverEffect(w: World, id: nat)
    requires Enabled(w, Deliver(id))
    ensures var s := w.streams[id];
      var e := s.queue[0];
      var v := Apply(w, Deliver(id));
      && v.calls == w.calls && v.listens == w.listens && v.nextId == w.nextId
      && v.streams == w.streams[id := s.(queue := s.queue[1..])]
      && (w.handlers == 0 ==> v.ctl == w.ctl && v.creds == w.creds && v.handlers == 0)
      && (w.handlers > 0 && AuthFailure(e) ==> v.ctl == RESET && !v.creds)
      && (w.handlers > 0 && !AuthFailure(e) ==>
            v.ctl == Handled(w.ctl, w.creds, e) && v.creds == w.creds && v.handlers == w.handlers)
  {
    if w.handlers > 0 {
      var s := w.streams[id];
      HandleByEffect(w.(streams := w.streams[id := s.(queue := s.queue[1..])]), s.queue[0], w.handlers);
    }
  }

  lemma DeliverKeepsInv(w: World, id: nat)
    requires Inv(w) && Enabled(w, Deliver(id))
    ensures Inv(Apply(w, Deliver(id)))
  {
    var s := w.streams[id];
    DeliverEffect(w, id);
    OperationsKeepConsistent(w.ctl, w.creds, false, false, s.queue[0]);
    assert ClosedByDisconnect(s);
  }

  lemma StreamStepKeepsInv(w: World, step: Step)
    requires Inv(w) && Enabled(w, step)
    requires step.OpenFails? || step.BadStatus? || step.Opened? || step.Emits? || step.Ends?
    ensures Inv(Apply(w, step))
  {
  }

  lemma CallStepKeepsInv(w: World, step: Step)
    requires Inv(w) && Enabled(w, step)
    requires step.CallFails? || step.CallAccepted? || step.Reply?
    ensures Inv(Apply(w, step))
  {
    OperationsKeepConsistent(w.ctl, w.creds, false, false, Other);
    if step.Reply? {
      OperationsKeepConsistent(w.ctl, w.creds, false, true, Other);
    }
  }

  lemma ControlStepKeepsInv(w: World, step: Step)
    requires Inv(w) && Enabled(w, step)
    requires step.Connect? || step.ListenResolved? || step.Stop? || step.RequestReconnect? || step.TimerFires?
    ensures Inv(Apply(w, step))
  {
    OperationsKeepConsistent(w.ctl, w.creds, true, false, Other);
    OperationsKeepConsistent(w.ctl, w.creds, false, false, Other);
    var v := Apply(w, step);
    if v.ctl.starting && !w.ctl.starting { assert w.nextId in v.calls; }
  }

  lemma StepKeepsInv(w: World, step: Step)
    requires Inv(w) && Enabled(w, step)
    ensures Inv(Apply(w, step))
  {
    match step
    case Deliver(id) => DeliverKeepsInv(w, id);
    case OpenFails(_) => StreamStepKeepsInv(w, step);
    case BadStatus(_, _) => StreamStepKeepsInv(w, step);
    case Opened(_) => StreamStepKeepsInv(w, step);
    case Emits(_, _) => StreamStepKeepsInv(w, step);
    case Ends(_) => StreamStepKeepsInv(w, step);
    case CallFails(_) => CallStepKeepsInv(w, step);
    case CallAccepted(_) => CallStepKeepsInv(w, step);
    case Reply(_) => CallStepKeepsInv(w, step);
    case _ => ControlStepKeepsInv(w, step);
  }

  // ---- Which steps keep the controller unstuck

  lemma DeliverKeepsNotStuck(w: World, id: nat)
    requires Inv(w) && NotStuck(w) && Enabled(w, Deliver(id))
    ensures NotStuck(Apply(w, Deliver(id)))
  {
    var v := Apply(w, Deliver(id));
    var s := w.streams[id];
    var e := s.queue[0];
    DeliverEffect(w, id);
    CallsOpenSame(w, v);
    if v.creds && w.handlers > 0 && !e.Error? && !e.Disconnected? {
      var rest := v.streams[id];
      assert ClosedByDisconnect(s);
      assert Unfinished(rest) by {
        assert s.phase == Done ==> s.queue[|s.queue| - 1] != e;
      }
    }
  }

  lemma CallsOpenSame(w: World, v: World)
    requires v.calls == w.calls
    ensures CallOpen(v) == CallOpen(w)
  {
  }

  lemma StreamStepKeepsNotStuck(w: World, step: Step)
    requires Inv(w) && NotStuck(w) && Enabled(w, step)
    requires step.OpenFails? || step.BadStatus? || step.Opened? || step.Emits? || step.Ends?
    ensures NotStuck(Apply(w, step))
  {
    var v := Apply(w, step);
    CallsOpenSame(w, v);
    assert exists id :: id in v.streams && Unfinished(v.streams[id]) by {
      assert Unfinished(v.streams[step.id]);
    }
  }

  lemma CallStepKeepsNotStuck(w: World, step: Step)
    requires Inv(w) && NotStuck(w) && Enabled(w, step)
    requires step.CallFails? || step.CallAccepted? || step.Reply?
    ensures NotStuck(Apply(w, step))
  {
    var v := Apply(w, step);
    match step
    case CallFails(id) => assert v.calls[id] == Failing;
    case CallAccepted(id) => assert Unfinished(v.streams[id]);
    case Reply(id) =>
      if CallOpen(w) && w.calls[id] == Accepted {
        var open :| open in w.calls && w.calls[open] != Accepted;
        assert open in v.calls && v.calls[open] == w.calls[open];
      }
  }

  /** The five steps at the controller's edge are the only ones that can leave it stuck, and
      they do exactly in the two guarded cases. */
  lemma ControlStepNotStuckIff(w: World, step: Step)
    requires Inv(w) && NotStuck(w) && Enabled(w, step)
    requires step.Connect? || step.ListenResolved? || step.Stop? || step.RequestReconnect? || step.TimerFires?
    ensures NotStuck(Apply(w, step)) <==> Safe(w, step)
  {
    var v := Apply(w, step);
    assert v.streams == w.streams;
    assert StreamUnfinished(v) == StreamUnfinished(w);
    if v.nextId == w.nextId {
      CallsOpenSame(w, v);
    } else {
      assert v.calls[w.nextId] == Requested;
    }
  }

  lemma StepNotStuckIff(w: World, step: Step)
    requires Inv(w) && NotStuck(w) && Enabled(w, step)
    ensures NotStuck(Apply(w, step)) <==> Safe(w, step)
  {
    match step
    case Deliver(id) => DeliverKeepsNotStuck(w, id);
    case OpenFails(_) => StreamStepKeepsNotStuck(w, step);
    case BadStatus(_, _) => StreamStepKeepsNotStuck(w, step);
    case Opened(_) => StreamStepKeepsNotStuck(w, step);
    case Emits(_, _) => StreamStepKeepsNotStuck(w, step);
    case Ends(_) => StreamStepKeepsNotStuck(w, step);
    case CallFails(_) => CallStepKeepsNotStuck(w, step);
    case CallAccepted(_) => CallStepKeepsNotStuck(w, step);
    case Reply(_) => CallStepKeepsNotStuck(w, step);
    case _ => ControlStepNotStuckIff(w, step);
  }

  // ---- Runs

  /** The worlds before and after each step of a run from `w`. */
  predicate IsRun(w: World, steps: seq<Step>)
    decreases |steps|
  {
    steps == [] || (Enabled(w, steps[0]) && IsRun(Apply(w, steps[0]), steps[1..]))
  }

  function After(w: World, steps: seq<Step>): World
    requires IsRun(w, steps)
    decreases |steps|
  {
    if steps == [] then w else After(Apply(w, steps[0]), steps[1..])
  }

  predicate AlwaysNotStuck(w: World, steps: seq<Step>)
    requires IsRun(w, steps)
    decreases |steps|
  {
    NotStuck(w) && (steps == [] || AlwaysNotStuck(Apply(w, steps[0]), steps[1..]))
  }

  predicate AlwaysSafe(w: World, steps: seq<Step>)
    requires IsRun(w, steps)
    decreases |steps|
  {
    steps == [] || (Safe(w, steps[0]) && AlwaysSafe(Apply(w, steps[0]), steps[1..]))
  }

  lemma InitHolds()
    ensures Inv(INIT) && NotStuck(INIT)
  {
  }

  /** Every reachable world satisfies the invariant. */
  lemma {:induction false} RunKeepsInv(w: World, steps: seq<Step>)
    requires Inv(w) && IsRun(w, steps)
    ensures Inv(After(w, steps))
    decreases |steps|
  {
    if steps != [] {
      StepKeepsInv(w, steps[0]);
      RunKeepsInv(Apply(w, steps[0]), steps[1..]);
    }
  }

  /** Exactly: a run never gets stuck if and only if no `start` is lost at the `starting`
      guard with nothing else under way and no sign-in meets a live state without a stream. */
  lemma {:induction false} NeverStuckIff(w: World, steps: seq<Step>)
    requires Inv(w) && NotStuck(w) && IsRun(w, steps)
    ensures AlwaysNotStuck(w, steps) <==> AlwaysSafe(w, steps)
    decreases |steps|
  {
    if steps != [] {
      var v := Apply(w, steps[0]);
      StepKeepsInv(w, steps[0]);
      StepNotStuckIff(w, steps[0]);
      if NotStuck(v) {
        NeverStuckIff(v, steps[1..]);
      }
    }
  }

  // ---- Orderly runs

  /** `RepliesFirst`: the reply of a start call arrives before any event of the stream it opened.
      `ListensFirst`: no sign-in or sign-out overtakes a pending `listen`. */
  datatype Rule = RepliesFirst | ListensFirst

  predicate Obeys(w: World, step: Step, rule: Rule) {
    match rule
    case RepliesFirst => step.Deliver? ==> step.id !in w.calls
    case ListensFirst => step == Connect || step == Stop ==> w.listens == 0
  }

  predicate Orderly(w: World, step: Step) { Obeys(w, step, RepliesFirst) && Obeys(w, step, ListensFirst) }

  predicate OrderlyRun(w: World, steps: seq<Step>)
    decreases |steps|
  {
    steps == []
    || (Enabled(w, steps[0]) && Orderly(w, steps[0]) && OrderlyRun(Apply(w, steps[0]), steps[1..]))
  }

  /** One handler at most, none while signed out, and an accepted call not yet answered still
      has its whole stream ahead. */
  ghost predicate OrderlyInv(w: World) {
    && Inv(w)
    && w.listens <= (if w.ctl.unlisten then 0 else 1)
    && w.handlers == (if w.ctl.unlisten then 1 else 0)
    && (!w.creds ==> w.listens == 0 && !w.ctl.unlisten && w.ctl.state == Offline)
    && (forall id :: id in w.calls && w.calls[id] == Accepted ==> id in w.streams && Unfinished(w.streams[id]))
    && (forall id :: id in w.streams && w.streams[id].phase == Opening ==> w.streams[id].queue == [])
  }

  lemma OrderlyDeliverKeepsInv(w: World, id: nat)
    requires OrderlyInv(w) && Enabled(w, Deliver(id)) && Orderly(w, Deliver(id))
    ensures OrderlyInv(Apply(w, Deliver(id)))
  {
    StepKeepsInv(w, Deliver(id));
    DeliverEffect(w, id);
  }

  lemma OrderlyStepKeepsInv(w: World, step: Step)
    requires OrderlyInv(w) && Enabled(w, step) && Orderly(w, step)
    ensures OrderlyInv(Apply(w, step))
  {
    if step.Deliver? {
      OrderlyDeliverKeepsInv(w, step.id);
    } else {
      StepKeepsInv(w, step);
    }
  }

  /** Orderly steps are safe. */
  lemma OrderlyIsSafe(w: World, step: Step)
    requires OrderlyInv(w) && NotStuck(w) && Enabled(w, step) && Orderly(w, step)
    ensures Safe(w, step)
  {
    if w.creds && w.ctl.starting && !CallOpen(w) {
      var id :| id in w.calls;
      assert w.calls[id] == Accepted;
      assert Unfinished(w.streams[id]);
    }
  }

  lemma {:induction false} OrderlyRunNeverStuck(w: World, steps: seq<Step>)
    requires OrderlyInv(w) && NotStuck(w) && OrderlyRun(w, steps)
    ensures IsRun(w, steps) && OrderlyInv(After(w, steps)) && AlwaysNotStuck(w, steps)
    decreases |steps|
  {
    if steps != [] {
      OrderlyIsSafe(w, steps[0]);
      StepNotStuckIff(w, steps[0]);
      OrderlyStepKeepsInv(w, steps[0]);
      OrderlyRunNeverStuck(Apply(w, steps[0]), steps[1..]);
    }
  }

  /** From a fresh start, every orderly run stays unstuck through every sign-in and sign-out. */
  lemma NeverStuck(steps: seq<Step>)
    requires OrderlyRun(INIT, steps)
    ensures IsRun(INIT, steps) && AlwaysNotStuck(INIT, steps)
  {
    OrderlyRunNeverStuck(INIT, steps);
  }

  // ---- Recovery

  /** A step no user takes. */
  predicate BySystem(step: Step) { step != Connect && step != Stop && step != RequestReconnect }

  /** Messages, timers and replies alone can lead to a live stream, or to the gate when the
      server rejects the token. */
  ghost predicate Recovers(w: World) {
    exists steps :: RecoversBy(w, steps)
  }

  predicate RecoversBy(w: World, steps: seq<Step>)
    decreases |steps|
  {
    if steps == [] then w.ctl.state == Live || !w.creds
    else Enabled(w, steps[0]) && Orderly(w, steps[0]) && BySystem(steps[0])
         && RecoversBy(Apply(w, steps[0]), steps[1..])
  }

  lemma RecoversNow(w: World)
    requires w.ctl.state == Live || !w.creds
    ensures Recovers(w)
  {
    assert RecoversBy(w, []);
  }

  lemma RecoversAfter(w: World, step: Step)
    requires Enabled(w, step) && Orderly(w, step) && BySystem(step)
    requires Recovers(Apply(w, step))
    ensures Recovers(w)
  {
    var steps :| RecoversBy(Apply(w, step), steps);
    assert ([step] + steps)[1..] == steps;
    assert RecoversBy(w, [step] + steps);
  }

  /** A stream that opens and was answered brings the controller to live. */
  lemma OpeningRecovers(w: World, id: nat)
    requires OrderlyInv(w) && w.creds && w.ctl.unlisten
    requires id in w.streams && w.streams[id] == Stream(Opening, []) && id !in w.calls
    ensures Recovers(w)
  {
    var ready := Apply(w, Opened(id));
    var live := Apply(ready, Deliver(id));
    DeliverEffect(ready, id);
    RecoversNow(live);
    RecoversAfter(ready, Deliver(id));
    RecoversAfter(w, Opened(id));
  }

  lemma RequestRecovers(w: World, id: nat)
    requires OrderlyInv(w) && w.creds && w.ctl.unlisten
    requires id in w.calls && w.calls[id] == Requested
    ensures Recovers(w)
  {
    var accepted := Apply(w, CallAccepted(id));
    OrderlyStepKeepsInv(w, CallAccepted(id));
    var answered := Apply(accepted, Reply(id));
    OrderlyStepKeepsInv(accepted, Reply(id));
    OpeningRecovers(answered, id);
    RecoversAfter(accepted, Reply(id));
    RecoversAfter(w, CallAccepted(id));
  }

  lemma TimerRecovers(w: World)
    requires OrderlyInv(w) && w.creds && w.ctl.unlisten
    requires w.ctl.timer.Some? && !w.ctl.starting
    ensures Recovers(w)
  {
    OrderlyStepKeepsInv(w, TimerFires);
    RequestRecovers(Apply(w, TimerFires), w.nextId);
    RecoversAfter(w, TimerFires);
  }

  /** With no reply outstanding, the events of an unfinished stream lead on. */
  lemma {:induction false} StreamRecovers(w: World, id: nat)
    requires OrderlyInv(w) && w.creds && w.ctl.unlisten && w.calls == map[]
    requires id in w.streams && Unfinished(w.streams[id])
    ensures Recovers(w)
    decreases |w.streams[id].queue|
  {
    var s := w.streams[id];
    if w.ctl.state == Live {
      RecoversNow(w);
    } else if w.ctl.timer.Some? {
      TimerRecovers(w);
    } else if s.queue == [] {
      if s.phase == Opening {
        OpeningRecovers(w, id);
      } else {
        var sent := Apply(w, Emits(id, Message));
        DeliverEffect(sent, id);
        RecoversNow(Apply(sent, Deliver(id)));
        RecoversAfter(sent, Deliver(id));
        RecoversAfter(w, Emits(id, Message));
      }
    } else {
      var v := Apply(w, Deliver(id));
      OrderlyStepKeepsInv(w, Deliver(id));
      DeliverEffect(w, id);
      assert ClosedByDisconnect(s);
      if v.ctl.state == Live || !v.creds {
        RecoversNow(v);
      } else if v.ctl.timer.Some? {
        TimerRecovers(v);
      } else {
        StreamRecovers(v, id);
      }
      RecoversAfter(w, Deliver(id));
    }
  }

  /** With the listener in place and calls in flight: answer them one by one. */
  lemma {:induction false} CallsRecover(w: World)
    requires OrderlyInv(w) && NotStuck(w) && w.creds && w.ctl.unlisten
    ensures Recovers(w)
    decreases |w.calls|
  {
    if w.calls == map[] {
      if w.ctl.state == Live {
        RecoversNow(w);
      } else if w.ctl.timer.Some? {
        TimerRecovers(w);
      } else {
        var id :| id in w.streams && Unfinished(w.streams[id]);
        StreamRecovers(w, id);
      }
    } else {
      var id :| id in w.calls;
      if w.calls[id] == Requested {
        RequestRecovers(w, id);
      } else {
        OrderlyStepKeepsInv(w, Reply(id));
        OrderlyIsSafe(w, Reply(id));
        StepNotStuckIff(w, Reply(id));
        CallsRecover(Apply(w, Reply(id)));
        RecoversAfter(w, Reply(id));
      }
    }
  }

  /** From every world an orderly run reaches while signed in, the system can recover alone. */
  lemma RecoversFromAnywhere(steps: seq<Step>)
    requires OrderlyRun(INIT, steps)
    ensures IsRun(INIT, steps)
    ensures After(INIT, steps).creds ==> Recovers(After(INIT, steps))
  {
    OrderlyRunNeverStuck(INIT, steps);
    RunKeepsInv(INIT, steps);
    NotStuckAtEnd(INIT, steps);
    var w := After(INIT, steps);
    if w.creds {
      if w.ctl.unlisten {
        CallsRecover(w);
      } else {
        OrderlyStepKeepsInv(w, ListenResolved);
        OrderlyIsSafe(w, ListenResolved);
        StepNotStuckIff(w, ListenResolved);
        CallsRecover(Apply(w, ListenResolved));
        RecoversAfter(w, ListenResolved);
      }
    }
  }

  lemma {:induction false} NotStuckAtEnd(w: World, steps: seq<Step>)
    requires IsRun(w, steps) && AlwaysNotStuck(w, steps)
    ensures NotStuck(After(w, steps))
    decreases |steps|
  {
    if steps != [] { NotStuckAtEnd(Apply(w, steps[0]), steps[1..]); }
  }

  // ---- Both hypotheses are needed

  /** Every step of the run obeys the rule. */
  predicate Obedient(w: World, steps: seq<Step>, rule: Rule)
    requires IsRun(w, steps)
    decreases |steps|
  {
    steps == [] || (Obeys(w, steps[0], rule) && Obedient(Apply(w, steps[0]), steps[1..], rule))
  }

  /** Some run that obeys the rule reaches the world. */
  ghost predicate Reachable(w: World, rule: Rule) {
    exists steps :: IsRun(INIT, steps) && Obedient(INIT, steps, rule) && After(INIT, steps) == w
  }

  lemma {:induction false} RunSnoc(w: World, steps: seq<Step>, step: Step, rule: Rule)
    requires IsRun(w, steps) && Obedient(w, steps, rule)
    requires Enabled(After(w, steps), step) && Obeys(After(w, steps), step, rule)
    ensures IsRun(w, steps + [step]) && Obedient(w, steps + [step], rule)
    ensures After(w, steps + [step]) == Apply(After(w, steps), step)
    decreases |steps|
  {
    if steps == [] {
      assert [step][1..] == [] && [] + [step] == [step];
    } else {
      assert (steps + [step])[1..] == steps[1..] + [step];
      RunSnoc(Apply(w, steps[0]), steps[1..], step, rule);
    }
  }

  lemma Reach(w: World, step: Step, v: World, rule: Rule)
    requires Reachable(w, rule) && Enabled(w, step) && Obeys(w, step, rule) && Apply(w, step) == v
    ensures Reachable(v, rule)
  {
    var steps :| IsRun(INIT, steps) && Obedient(INIT, steps, rule) && After(INIT, steps) == w;
    RunSnoc(INIT, steps, step, rule);
  }

  lemma InitReachable(rule: Rule)
    ensures Reachable(INIT, rule)
  {
    assert IsRun(INIT, []) && Obedient(INIT, [], rule) && After(INIT, []) == INIT;
  }

  /** Nothing is under way: no system step can ever happen again. */
  ghost predicate Deadlocked(w: World) {
    w.creds && w.ctl.state != Offline && forall step :: BySystem(step) ==> !Enabled(w, step)
  }

  /** Signed in, subscribed, the first start call in flight. */
  const STARTING := World(Ctl(Connecting, 0, None, true, false, true), true, 1, 0, map[0 := Requested], map[], 1)

  lemma StartingReachable(rule: Rule)
    ensures Reachable(STARTING, rule)
  {
    InitReachable(rule);
    var w := World(RESET, true, 0, 1, map[], map[], 0);
    Reach(INIT, Connect, w, rule);
    Reach(w, ListenResolved, STARTING, rule);
  }

  /** The server answered 503 and the retry is armed, but the start call has not replied. */
  const RETRY_ARMED := World(Ctl(Reconnecting, 1, Some(1000), true, false, true), true, 1, 0,
                             map[0 := Accepted], map[0 := Stream(Done, [])], 1)

  lemma RetryArmedReachable()
    ensures Reachable(RETRY_ARMED, ListensFirst)
  {
    StartingReachable(ListensFirst);
    var e := Disconnected(Some(503));
    var opening := STARTING.(calls := map[0 := Accepted], streams := map[0 := Stream(Opening, [])]);
    Reach(STARTING, CallAccepted(0), opening, ListensFirst);
    var closed := opening.(streams := map[0 := Stream(Done, [e])]);
    assert [] + [e] == [e] && [e][1..] == [];
    Reach(opening, BadStatus(0, 503), closed, ListensFirst);
    DeliverEffect(closed, 0);
    Reach(closed, Deliver(0), RETRY_ARMED, ListensFirst);
  }

  /** When a stream's events overtake the reply of its start call, the retry timer can fire
      while `starting` is still set: the retry is dropped and the controller shows
      "reconnecting" forever. The other rule does not prevent it. */
  lemma OvertakenReplyDeadlocks() returns (w: World)
    ensures Reachable(w, ListensFirst) && w.ctl.state == Reconnecting && Deadlocked(w)
  {
    RetryArmedReachable();
    var fired := RETRY_ARMED.(ctl := RETRY_ARMED.ctl.(timer := None));
    Reach(RETRY_ARMED, TimerFires, fired, ListensFirst);
    w := fired.(ctl := fired.ctl.(starting := false), calls := map[]);
    Reach(fired, Reply(0), w, ListensFirst);
  }

  /** Signed out with a finished stream whose events were not delivered. */
  const SIGNED_OUT := World(RESET, false, 0, 0, map[], map[0 := Stream(Done, [Connected, Disconnected(None)])], 1)

  lemma SignedOutReachable()
    ensures Reachable(SIGNED_OUT, RepliesFirst)
  {
    StartingReachable(RepliesFirst);
    var opening := STARTING.(calls := map[0 := Accepted], streams := map[0 := Stream(Opening, [])]);
    Reach(STARTING, CallAccepted(0), opening, RepliesFirst);
    var answered := opening.(ctl := opening.ctl.(starting := false), calls := map[]);
    Reach(opening, Reply(0), answered, RepliesFirst);
    var streaming := answered.(streams := map[0 := Stream(Streaming, [Connected])]);
    assert [] + [Connected] == [Connected];
    assert [Connected] + [Disconnected(None)] == [Connected, Disconnected(None)];
    Reach(answered, Opened(0), streaming, RepliesFirst);
    var ended := streaming.(streams := map[0 := Stream(Done, [Connected, Disconnected(None)])]);
    Reach(streaming, Ends(0), ended, RepliesFirst);
    Reach(ended, Stop, SIGNED_OUT, RepliesFirst);
  }

  /** Signed out, the late handler registered, the old stream's events still to come. */
  const LATE_HANDLER := SIGNED_OUT.(handlers := 1, ctl := RESET.(unlisten := true))

  lemma LateHandlerReachable()
    ensures Reachable(LATE_HANDLER, RepliesFirst)
  {
    SignedOutReachable();
    var waiting := SIGNED_OUT.(creds := true, listens := 1);
    Reach(SIGNED_OUT, Connect, waiting, RepliesFirst);
    var left := SIGNED_OUT.(listens := 1);
    Reach(waiting, Stop, left, RepliesFirst);
    Reach(left, ListenResolved, LATE_HANDLER, RepliesFirst);
  }

  /** When a sign-out overtakes a pending `listen`, the late handler can mark the signed-out
      controller live; the next sign-in then opens no stream. The other rule does not prevent it. */
  lemma OvertakenListenDeadlocks() returns (w: World)
    ensures Reachable(w, RepliesFirst) && w.ctl.state == Live && Deadlocked(w)
  {
    LateHandlerReachable();
    var live := LATE_HANDLER.(ctl := Ctl(Live, 0, None, false, true, true),
                              streams := map[0 := Stream(Done, [Disconnected(None)])]);
    assert [Connected, Disconnected(None)][1..] == [Disconnected(None)];
    assert [Disconnected(None)][1..] == [];
    DeliverEffect(LATE_HANDLER, 0);
    Reach(LATE_HANDLER, Deliver(0), live, RepliesFirst);
    var idle := live.(streams := map[0 := Stream(Done, [])]);
    DeliverEffect(live, 0);
    Reach(live, Deliver(0), idle, RepliesFirst);
    w := idle.(creds := true);
    Reach(idle, Connect, w, RepliesFirst);
  }

  // ---- Backoff

  /** A step arms the timer only with the delay of the next attempt, and only going live or
      offline takes the attempt back. */
  lemma BackoffStep(w: World, step: Step)
    requires Inv(w) && Enabled(w, step)
    ensures var v := Apply(w, step);
      && (v.ctl.timer.Some? && v.ctl.timer != w.ctl.timer ==> v.ctl.attempt == Min(w.ctl.attempt + 1, MAX_ATTEMPT))
      && (v.ctl.state == Reconnecting ==> w.ctl.attempt <= v.ctl.attempt)
  {
    if step.Deliver? { DeliverEffect(w, step.id); }
  }

  /** Along a run that shows "reconnecting" throughout, each delay is at least the one before,
      and all lie between one and thirty seconds. */
  lemma {:induction false} DelaysNondecreasing(w: World, steps: seq<Step>)
    requires Inv(w) && IsRun(w, steps) && StaysReconnecting(w, steps)
    ensures var v := After(w, steps);
      && w.ctl.attempt <= v.ctl.attempt
      && (w.ctl.timer.Some? ==> BASE_DELAY_MS <= w.ctl.timer.value <= MAX_DELAY_MS)
      && (w.ctl.timer.Some? && v.ctl.timer.Some? ==> w.ctl.timer.value <= v.ctl.timer.value)
    decreases |steps|
  {
    var v := After(w, steps);
    if steps != [] {
      StepKeepsInv(w, steps[0]);
      BackoffStep(w, steps[0]);
      DelaysNondecreasing(Apply(w, steps[0]), steps[1..]);
    }
    RunKeepsInv(w, steps);
    DelayBounds(w.ctl.attempt, v.ctl.attempt);
  }

  predicate StaysReconnecting(w: World, steps: seq<Step>)
    requires IsRun(w, steps)
    decreases |steps|
  {
    w.ctl.state == Reconnecting && (steps == [] || StaysReconnecting(Apply(w, steps[0]), steps[1..]))
  }

  // ---- The delays of failures in a row

  predicate Arms(w: World, step: Step)
    requires Enabled(w, step)
  {
    w.ctl.timer.None? && Apply(w, step).ctl.timer.Some?
  }

  /** How often a run arms the retry timer. */
  function Armings(w: World, steps: seq<Step>): nat
    requires IsRun(w, steps)
    decreases |steps|
  {
    if steps == [] then 0 else (if Arms(w, steps[0]) then 1 else 0) + Armings(Apply(w, steps[0]), steps[1..])
  }

  /** No success and no sign-out along the run. */
  predicate KeepsTrying(w: World, steps: seq<Step>)
    requires IsRun(w, steps)
    decreases |steps|
  {
    (w.ctl.state == Connecting || w.ctl.state == Reconnecting)
    && (steps == [] || KeepsTrying(Apply(w, steps[0]), steps[1..]))
  }

  /** While trying, only arming a retry counts an attempt. */
  lemma AttemptStep(w: World, step: Step)
    requires Inv(w) && Enabled(w, step) && Apply(w, step).ctl.state in {Connecting, Reconnecting}
    requires w.ctl.state == Connecting || w.ctl.state == Reconnecting
    ensures Apply(w, step).ctl.attempt == if Arms(w, step) then Min(w.ctl.attempt + 1, 6) else w.ctl.attempt
  {
    if step.Deliver? { DeliverEffect(w, step.id); }
  }

  lemma {:induction false} AttemptsCount(w: World, steps: seq<Step>)
    requires Inv(w) && IsRun(w, steps) && KeepsTrying(w, steps)
    ensures After(w, steps).ctl.attempt == Min(w.ctl.attempt + Armings(w, steps), 6)
    decreases |steps|
  {
    if steps != [] {
      assert KeepsTrying(Apply(w, steps[0]), steps[1..]);
      StepKeepsInv(w, steps[0]);
      AttemptStep(w, steps[0]);
      AttemptsCount(Apply(w, steps[0]), steps[1..]);
    }
  }

  /** Failures in a row, with no success between: the k-th retry waits 1, 2, 4, 8, 16 seconds, and
      from the sixth on 30. */
  lemma KthDelay(w: World, steps: seq<Step>)
    requires Inv(w) && IsRun(w, steps) && KeepsTrying(w, steps) && w.ctl.attempt == 0
    ensures var k := Armings(w, steps);
      After(w, steps).ctl.timer.Some? ==>
        && k >= 1
        && After(w, steps).ctl.timer.value == (if k == 1 then 1000 else if k == 2 then 2000 else if k == 3 then 4000
                                               else if k == 4 then 8000 else if k == 5 then 16000 else 30000)
  {
    AttemptsCount(w, steps);
    RunKeepsInv(w, steps);
    var v := After(w, steps);
    if v.ctl.timer.Some? { DelaysInARow(v.ctl.attempt); }
  }

  // ---- What the steps do

  /** `v` is `w` with a start call put in flight if one may be: with credentials, none in flight, and
      not live unless it is a retry. */
  predicate MayStart(w: World, retry: bool, v: World) {
    if w.creds && !w.ctl.starting && (w.ctl.state == Live ==> retry) then
      && v.calls == w.calls[w.nextId := Requested] && v.nextId == w.nextId + 1
      && v.ctl == Ctl(if w.ctl.attempt == 0 then Connecting else Reconnecting, w.ctl.attempt, w.ctl.timer, true, false, w.ctl.unlisten)
      && v == w.(ctl := v.ctl, calls := v.calls, nextId := v.nextId)
    else v == w
  }

  /** Signing in subscribes first, and starts when subscribed; signing out drops the latest handler;
      a reconnect can be asked for at any time; the timer starts a retry. */
  lemma ControlExactly(w: World, step: Step)
    requires Enabled(w, step)
    ensures var v := Apply(w, step);
      match step
      case Connect => if w.ctl.unlisten then MayStart(w.(creds := true), false, v) else v == w.(creds := true, listens := w.listens + 1)
      case ListenResolved =>
        MayStart(w.(listens := w.listens - 1, handlers := w.handlers + 1,
                    ctl := Ctl(w.ctl.state, w.ctl.attempt, w.ctl.timer, w.ctl.starting, w.ctl.listening, true)), false, v)
      case Stop =>
        && v.ctl == Ctl(Offline, 0, None, false, false, false) && !v.creds
        && v.handlers == (if w.ctl.unlisten && w.handlers > 0 then w.handlers - 1 else w.handlers)
        && v.calls == w.calls && v.streams == w.streams && v.listens == w.listens && v.nextId == w.nextId
      case RequestReconnect => RetryArmed(w.ctl, w.creds, v.ctl) && v == w.(ctl := v.ctl)
      case TimerFires =>
        MayStart(w.(ctl := Ctl(w.ctl.state, w.ctl.attempt, None, w.ctl.starting, w.ctl.listening, w.ctl.unlisten)), true, v)
      case Reply(id) =>
        && v.calls == w.calls - {id} && v == w.(ctl := v.ctl, calls := v.calls)
        && (if w.calls[id] == Accepted then v.ctl == w.ctl.(starting := false)
            else RetryArmed(w.ctl.(starting := false), w.creds, v.ctl))
      case _ => true
  {
  }

  // ---- What a stream tells

  /** What the step adds to the queue of the stream `id`. */
  function Told(w: World, step: Step, id: nat): seq<Event>
    requires Enabled(w, step)
  {
    if step.Deliver? || id !in w.streams || id !in Apply(w, step).streams then []
    else
      var before, after := w.streams[id].queue, Apply(w, step).streams[id].queue;
      if |before| <= |after| then after[|before|..] else []
  }

  /** All a stream told along a run. */
  function Trace(w: World, steps: seq<Step>, id: nat): seq<Event>
    requires IsRun(w, steps)
    decreases |steps|
  {
    if steps == [] then [] else Told(w, steps[0], id) + Trace(Apply(w, steps[0]), steps[1..], id)
  }

  /** What was delivered of it. */
  function Delivered(w: World, steps: seq<Step>, id: nat): seq<Event>
    requires IsRun(w, steps)
    decreases |steps|
  {
    if steps == [] then []
    else Given(w, steps[0], id) + Delivered(Apply(w, steps[0]), steps[1..], id)
  }

  /** The traces of a stream task: nothing before the response; an error and the end, or the end with
      the status, when it did not open; `connected`, then anything, then the end. */
  predicate TraceShape(phase: Phase, trace: seq<Event>) {
    match phase
    case Opening => trace == []
    case Streaming => trace != [] && trace[0] == Connected
    case Done =>
      || trace == [Error(None), Disconnected(None)]
      || (|trace| == 1 && trace[0].Disconnected? && trace[0].status.Some?)
      || (|trace| >= 2 && trace[0] == Connected && trace[|trace| - 1] == Disconnected(None))
  }

  /** A run's call ids are handed out upwards and a stream has the id of its call. */
  predicate StreamKept(w: World, id: nat) {
    id in w.streams && id < w.nextId && (id in w.calls ==> w.calls[id] == Accepted) && forall k :: k in w.calls ==> k < w.nextId
  }

  lemma DeliverTells(w: World, step: Step, id: nat)
    requires Enabled(w, step) && step.Deliver? && StreamKept(w, id)
    ensures var v := Apply(w, step);
      && StreamKept(v, id) && v.streams[id].phase == w.streams[id].phase
      && w.streams[id].queue == (if step == Deliver(id) then [w.streams[id].queue[0]] else []) + v.streams[id].queue
  {
    DeliverEffect(w, step.id);
  }

  /** Between the worlds `w` and `v` the stream told `told` behind `trace`, and `given` was delivered
      from the front of its queue. */
  predicate Tells(w: World, v: World, id: nat, trace: seq<Event>, told: seq<Event>, given: seq<Event>) {
    && id in w.streams && StreamKept(v, id)
    && TraceShape(v.streams[id].phase, trace + told)
    && w.streams[id].queue + told == given + v.streams[id].queue
  }

  function Given(w: World, step: Step, id: nat): seq<Event>
    requires Enabled(w, step)
  {
    if step == Deliver(id) then [w.streams[id].queue[0]] else []
  }

  lemma StepTells(w: World, step: Step, id: nat, trace: seq<Event>)
    requires Enabled(w, step) && StreamKept(w, id) && TraceShape(w.streams[id].phase, trace)
    ensures Tells(w, Apply(w, step), id, trace, Told(w, step, id), Given(w, step, id))
  {
    if step.Deliver? {
      DeliverTells(w, step, id);
      assert trace + [] == trace;
    } else {
      StepQueues(w, step, id);
    }
  }

  lemma TellsTwice(w: World, v: World, end: World, id: nat, trace: seq<Event>,
                   x: seq<Event>, a: seq<Event>, y: seq<Event>, b: seq<Event>)
    requires Tells(w, v, id, trace, x, a) && Tells(v, end, id, trace + x, y, b)
    ensures Tells(w, end, id, trace, x + y, a + b)
  {
    assert trace + x + y == trace + (x + y);
    Regroup(w.streams[id].queue, x, a, v.streams[id].queue, y, b, end.streams[id].queue);
  }

  lemma StepQueues(w: World, step: Step, id: nat)
    requires Enabled(w, step) && !step.Deliver? && StreamKept(w, id)
    ensures var v := Apply(w, step);
      && StreamKept(v, id)
      && v.streams[id].queue == w.streams[id].queue + Told(w, step, id)
      && match step
         case OpenFails(k) => k == id ==> v.streams[id].phase == Done && Told(w, step, id) == [Error(None), Disconnected(None)]
         case BadStatus(k, status) => k == id ==> v.streams[id].phase == Done && Told(w, step, id) == [Disconnected(Some(status))]
         case Opened(k) => k == id ==> v.streams[id].phase == Streaming && Told(w, step, id) == [Connected]
         case Emits(k, e) => k == id ==> v.streams[id].phase == Streaming && Told(w, step, id) == [e]
         case Ends(k) => k == id ==> v.streams[id].phase == Done && Told(w, step, id) == [Disconnected(None)]
         case _ => v.streams[id] == w.streams[id] && Told(w, step, id) == []
  {
  }

  lemma Regroup<T>(q: seq<T>, x: seq<T>, a: seq<T>, q': seq<T>, y: seq<T>, b: seq<T>, r: seq<T>)
    requires q + x == a + q' && q' + y == b + r
    ensures q + (x + y) == (a + b) + r
  {
    assert q + (x + y) == (q + x) + y == (a + q') + y == a + (q' + y) == a + (b + r);
  }

  lemma RunUnfolds(w: World, steps: seq<Step>, id: nat)
    requires steps != [] && IsRun(w, steps)
    ensures var v, rest := Apply(w, steps[0]), steps[1..];
      && Enabled(w, steps[0]) && IsRun(v, rest) && After(w, steps) == After(v, rest)
      && Trace(w, steps, id) == Told(w, steps[0], id) + Trace(v, rest, id)
      && Delivered(w, steps, id) == Given(w, steps[0], id) + Delivered(v, rest, id)
  {
  }

  lemma {:induction false} RunTells(w: World, steps: seq<Step>, id: nat, trace: seq<Event>)
    requires IsRun(w, steps) && StreamKept(w, id) && TraceShape(w.streams[id].phase, trace)
    ensures Tells(w, After(w, steps), id, trace, Trace(w, steps, id), Delivered(w, steps, id))
    decreases |steps|
  {
    if steps == [] {
      assert trace + [] == trace;
      assert w.streams[id].queue + [] == [] + w.streams[id].queue;
    } else {
      RunUnfolds(w, steps, id);
      var v, told := Apply(w, steps[0]), Told(w, steps[0], id);
      StepTells(w, steps[0], id, trace);
      RunTells(v, steps[1..], id, trace + told);
      TellsTwice(w, v, After(w, steps), id, trace, told, Given(w, steps[0], id),
                 Trace(v, steps[1..], id), Delivered(v, steps[1..], id));
    }
  }

  /** From the moment its call is accepted, a stream tells one of these traces, as far as it got, and
      what was delivered of it is its front part, in order, nothing twice and nothing left out. */
  lemma StreamTellsAndDelivers(w: World, id: nat, steps: seq<Step>)
    requires Inv(w) && Enabled(w, CallAccepted(id)) && IsRun(Apply(w, CallAccepted(id)), steps)
    ensures var v := Apply(w, CallAccepted(id));
      var end := After(v, steps);
      && id in end.streams
      && TraceShape(end.streams[id].phase, Trace(v, steps, id))
      && Trace(v, steps, id) == Delivered(v, steps, id) + end.streams[id].queue
  {
    var v := Apply(w, CallAccepted(id));
    RunTells(v, steps, id, []);
    assert [] + Trace(v, steps, id) == Trace(v, steps, id);
  }
}
