/**
 * The per-tick orchestration of firmware/src/main.c: the callbacks from the
 * USB and Bluetooth sides, the hardware poll and the gamepad step, all of
 * them feeding the PC power state machine and carrying out the actions it
 * asks for.
 *
 * The hardware is seen through its effects: every call into the power HAL
 * that `dispatch_actions` makes is appended to the `hal` log, every report
 * handed to `usb_hid_gamepad_send_report` to the `forwarded` log, and every
 * event given to the state machine to the `fed` log. The readings the firmware
 * takes from the HAL (the power LED, the boot timer, the clock) are
 * parameters of the operations that take them.
 */
module Orchestrator {
  import opened CTypes
  import opened Gamepad
  import opened PowerState
  import opened UsbHidGamepad
  import opened BtGamepad

  const POWER_PULSE_MS: int := 200
  const BOOT_TIMEOUT_MS: int := 30000

  /** One call into the power HAL. */
  datatype HalCall =
    | TriggerPowerButton(ms: int)
    | StartBootTimer(ms: int)
    | CancelBootTimer

  /** The HAL calls `dispatch_actions` makes for an action mask, in the order it makes them. */
  function Dispatched(actions: Actions): seq<HalCall>
  {
    Calls(HasAction(actions, ACTION_TRIGGER_POWER), HasAction(actions, ACTION_START_BOOT_TIMER),
          HasAction(actions, ACTION_CANCEL_BOOT_TIMER))
  }

  /** The HAL calls for the three action bits: trigger, then start, then cancel. */
  function Calls(trigger: bool, start: bool, cancel: bool): seq<HalCall>
  {
    (if trigger then [TriggerPowerButton(POWER_PULSE_MS)] else [])
    + (if start then [StartBootTimer(BOOT_TIMEOUT_MS)] else [])
    + (if cancel then [CancelBootTimer] else [])
  }

  /**
   * Each requested action is performed exactly once, an action not
   * requested is not performed, and nothing else is called (there are
   * no more calls than requested actions).
   */
  lemma DispatchOnce(trigger: bool, start: bool, cancel: bool)
    ensures multiset(Calls(trigger, start, cancel))[TriggerPowerButton(POWER_PULSE_MS)] == if trigger then 1 else 0
    ensures multiset(Calls(trigger, start, cancel))[StartBootTimer(BOOT_TIMEOUT_MS)] == if start then 1 else 0
    ensures multiset(Calls(trigger, start, cancel))[CancelBootTimer] == if cancel then 1 else 0
    ensures |Calls(trigger, start, cancel)| == (if trigger then 1 else 0) + (if start then 1 else 0) + (if cancel then 1 else 0)
  {
    var t := if trigger then [TriggerPowerButton(POWER_PULSE_MS)] else [];
    var s := if start then [StartBootTimer(BOOT_TIMEOUT_MS)] else [];
    var c := if cancel then [CancelBootTimer] else [];
    assert Calls(trigger, start, cancel) == t + s + c;
    assert multiset(t + s + c) == multiset(t) + multiset(s) + multiset(c);
  }

  /** The power context after a run of events, and the HAL calls their actions cause. */
  datatype Effect = Effect(ctx: Ctx, calls: seq<HalCall>)

  /**
   * Events fed one after another to a step function, starting from `ctx`:
   * the context the last one leaves and the HAL calls of all of them, in order.
   */
  function Run(step: (Ctx, Event) -> Effect, ctx: Ctx, events: seq<Event>): Effect
    decreases |events|
  {
    if events == [] then Effect(ctx, [])
    else
      var first := step(ctx, events[0]);
      var rest := Run(step, first.ctx, events[1..]);
      Effect(rest.ctx, first.calls + rest.calls)
  }

  /** Running two batches of events is running the first, then the second from where it left the machine. */
  lemma {:induction false} RunConcat(step: (Ctx, Event) -> Effect, ctx: Ctx, a: seq<Event>, b: seq<Event>)
    ensures Run(step, ctx, a + b).ctx == Run(step, Run(step, ctx, a).ctx, b).ctx
    ensures Run(step, ctx, a + b).calls == Run(step, ctx, a).calls + Run(step, Run(step, ctx, a).ctx, b).calls
    decreases |a|
  {
    if a == [] {
      assert a + b == b;
    } else {
      assert (a + b)[0] == a[0] && (a + b)[1..] == a[1..] + b;
      RunConcat(step, step(ctx, a[0]).ctx, a[1..], b);
    }
  }

  /** One event as the firmware handles it at time `now`: `pc_power_sm_process`, then `dispatch_actions` of its result. */
  function Fire(now: u32): (Ctx, Event) -> Effect
  {
    (ctx: Ctx, e: Event) => var o := Step(ctx, e, now); Effect(o.ctx, Dispatched(o.result.actions))
  }

  /** Feeding `events` to the state machine at time `now`, dispatching the actions of each before the next is fed. */
  function Feed(ctx: Ctx, events: seq<Event>, now: u32): Effect
  {
    Run(Fire(now), ctx, events)
  }

  /** Concatenation of logs is associative. */
  lemma Associative<T>(a: seq<T>, b: seq<T>, c: seq<T>)
    ensures (a + b) + c == a + (b + c)
  {
  }

  /** Feeding one event is one step of the machine and the dispatch of its actions. */
  lemma FeedOne(ctx: Ctx, e: Event, now: u32)
    ensures Feed(ctx, [e], now).ctx == Step(ctx, e, now).ctx
    ensures Feed(ctx, [e], now).calls == Dispatched(Step(ctx, e, now).result.actions)
  {
    assert [e][0] == e && [e][1..] == [];
    var o := Step(ctx, e, now);
    assert Fire(now)(ctx, e) == Effect(o.ctx, Dispatched(o.result.actions));
    assert Run(Fire(now), o.ctx, []) == Effect(o.ctx, []);
    assert Dispatched(o.result.actions) + [] == Dispatched(o.result.actions);
  }

  /** Feeding two batches of events is feeding the first, then the second. */
  lemma FeedConcat(ctx: Ctx, a: seq<Event>, b: seq<Event>, now: u32)
    ensures Feed(ctx, a + b, now).ctx == Feed(Feed(ctx, a, now).ctx, b, now).ctx
    ensures Feed(ctx, a + b, now).calls == Feed(ctx, a, now).calls + Feed(Feed(ctx, a, now).ctx, b, now).calls
  {
    RunConcat(Fire(now), ctx, a, b);
  }

  /** USB states as `on_usb_state_change` maps them: mounting is enumeration, suspension and unmounting are both suspension. */
  function UsbEvent(s: UsbState): (e: Event)
    ensures e == UsbEnumerated <==> s == Mounted
    ensures e == UsbSuspended <==> s != Mounted
  {
    match s
    case Mounted => UsbEnumerated
    case Suspended => UsbSuspended
    case NotMounted => UsbSuspended
  }

  /** The power-LED events of `poll_hardware`. */
  function LedEvents(prevLed: bool, led: bool): seq<Event>
  {
    if led && !prevLed then [PowerLedOn]
    else if !led && prevLed then [PowerLedOff]
    else []
  }

  /**
   * LED_ON is fed on a rise of the reading, LED_OFF on a fall, nothing when
   * it is steady, and never more than one of them. There is no debounce: a
   * single changed reading is an edge.
   */
  lemma LedEdges(prevLed: bool, led: bool)
    ensures |LedEvents(prevLed, led)| <= 1
    ensures PowerLedOn in LedEvents(prevLed, led) <==> led && !prevLed
    ensures PowerLedOff in LedEvents(prevLed, led) <==> !led && prevLed
    ensures LedEvents(prevLed, led) == [] <==> led == prevLed
  {
  }

  /** Everything one `poll_hardware` feeds: the LED edge, then the boot-timer expiry. */
  function PollEvents(prevLed: bool, led: bool, timerExpired: bool): seq<Event>
  {
    LedEvents(prevLed, led) + if timerExpired then [BootTimeout] else []
  }

  /** The boot timeout is fed exactly when the timer expired, and after the LED edge. */
  lemma TimeoutAfterLedEdge(prevLed: bool, led: bool, timerExpired: bool)
    ensures BootTimeout in PollEvents(prevLed, led, timerExpired) <==> timerExpired
    ensures timerExpired ==>
      PollEvents(prevLed, led, timerExpired) == LedEvents(prevLed, led) + [BootTimeout]
    ensures !timerExpired ==> PollEvents(prevLed, led, timerExpired) == LedEvents(prevLed, led)
  {
    if !timerExpired {
      assert LedEvents(prevLed, led) + [] == LedEvents(prevLed, led);
    }
  }

  /**
   * The wake condition of `process_gamepad`: the guide button is down now,
   * was not down in the previous report (or there is none), and the PC was
   * off or asleep when the step began.
   */
  predicate WakeFires(state: State, report: Report, prevValid: bool, prev: Report)
  {
    GuidePressed(report) && !(prevValid && GuidePressed(prev)) && (state == Off || state == Sleeping)
  }

  /** The events one `process_gamepad` feeds: a wake request or nothing. */
  function GamepadEvents(state: State, report: Report, prevValid: bool, prev: Report): seq<Event>
  {
    if WakeFires(state, report, prevValid, prev) then [WakeRequested] else []
  }

  /** A wake fed to an off or sleeping PC presses the power button once, for 200 ms. */
  lemma WakePressesPowerButton(ctx: Ctx, now: u32)
    requires ctx.state == Off || ctx.state == Sleeping
    ensures multiset(Feed(ctx, [WakeRequested], now).calls)[TriggerPowerButton(POWER_PULSE_MS)] == 1
  {
    var o := Step(ctx, WakeRequested, now);
    assert Feed(ctx, [WakeRequested], now).calls == Dispatched(o.result.actions) + [];
  }

  /** The power state the hardware poll leaves: the one the gamepad step samples. */
  function PolledState(ctx: Ctx, prevLed: bool, led: bool, timerExpired: bool, now: u32): State
  {
    Feed(ctx, PollEvents(prevLed, led, timerExpired), now).ctx.state
  }

  /**
   * The events one turn of `main`'s loop feeds: those of the hardware poll,
   * then those of the gamepad step if a report was read, the gamepad step
   * sampling the power state the poll left.
   */
  function TickEvents(ctx: Ctx, prevLed: bool, led: bool, timerExpired: bool, report: Option<Report>,
                      prevValid: bool, prev: Report, now: u32): seq<Event>
  {
    PollEvents(prevLed, led, timerExpired)
    + if report.Some?
      then GamepadEvents(PolledState(ctx, prevLed, led, timerExpired, now), report.value, prevValid, prev)
      else []
  }

  /**
   * The wakes fed while `reports` are processed one per tick, `states[i]`
   * being the power state sampled at tick `i`, starting from the previous
   * report `prev` (valid or not).
   */
  function WakeCount(prevValid: bool, prev: Report, reports: seq<Report>, states: seq<State>): nat
    requires |states| == |reports|
    decreases |reports|
  {
    if reports == [] then 0
    else
      (if WakeFires(states[0], reports[0], prevValid, prev) then 1 else 0)
      + WakeCount(true, reports[0], reports[1..], states[1..])
  }

  /**
   * Holding the guide button over consecutive reports requests at most one
   * wake, whatever the power state does meanwhile; none at all when it was
   * already held in the previous report.
   */
  lemma {:induction false} HeldGuideWakesOnce(prevValid: bool, prev: Report, reports: seq<Report>, states: seq<State>)
    requires |states| == |reports|
    requires forall i :: 0 <= i < |reports| ==> GuidePressed(reports[i])
    ensures WakeCount(prevValid, prev, reports, states) <= 1
    ensures prevValid && GuidePressed(prev) ==> WakeCount(prevValid, prev, reports, states) == 0
    decreases |reports|
  {
    if reports != [] {
      HeldGuideWakesOnce(true, reports[0], reports[1..], states[1..]);
    }
  }

  /**
   * After a disconnect there is no previous report, so the first report
   * with the guide button down requests a wake whenever the PC is off or
   * asleep, even if the button was already down before the disconnect.
   */
  lemma ReconnectRearmsWake(state: State, report: Report, prev: Report)
    requires GuidePressed(report) && GuidePressed(prev)
    ensures WakeFires(state, report, false, prev) <==> state == Off || state == Sleeping
    ensures !WakeFires(state, report, true, prev)
  {
  }

  /**
   * The module state of main.c: the power state machine, the previous
   * gamepad report and whether there is one, and the previous power-LED
   * reading; with the logs of what the firmware did.
   */
  class Device {
    const sm: PowerMachine
    var prevReport: Report
    var prevValid: bool
    var prevLed: bool
    var hal: seq<HalCall>
    var fed: seq<Event>
    var forwarded: seq<Report>

    /**
     * The initialisation part of `main`: the machine starts in OFF and the
     * first LED reading seeds `prevLed`, so a PC already running at reset
     * produces no LED edge. The previous report is the zeroed static.
     */
    constructor Init(ledReading: bool)
      ensures fresh(sm) && sm.Context() == INITIAL
      ensures prevLed == ledReading && !prevValid && prevReport == Report(0, 0, 0, 0, 0, 0, 0, 0)
      ensures hal == [] && fed == [] && forwarded == []
    {
      sm := new PowerMachine.Init();
      prevReport := Report(0, 0, 0, 0, 0, 0, 0, 0);
      prevValid := false;
      prevLed := ledReading;
      hal := [];
      fed := [];
      forwarded := [];
    }

    /** `dispatch_actions`: the HAL calls for each bit of the mask, in the order trigger, start, cancel. */
    method DispatchActions(actions: Actions)
      modifies this
      ensures hal == old(hal) + Dispatched(actions)
      ensures fed == old(fed) && forwarded == old(forwarded)
      ensures prevReport == old(prevReport) && prevValid == old(prevValid) && prevLed == old(prevLed)
    {
      ghost var start := hal;
      if HasAction(actions, ACTION_TRIGGER_POWER) {
        hal := hal + [TriggerPowerButton(POWER_PULSE_MS)];
      }
      if HasAction(actions, ACTION_START_BOOT_TIMER) {
        hal := hal + [StartBootTimer(BOOT_TIMEOUT_MS)];
      }
      if HasAction(actions, ACTION_CANCEL_BOOT_TIMER) {
        hal := hal + [CancelBootTimer];
      }
      assert hal == start + Dispatched(actions);
    }

    /** `pc_power_sm_process` followed by `dispatch_actions` of its result, the step every caller repeats. */
    method FeedEvent(e: Event, now: u32)
      modifies this, sm
      ensures sm.Context() == Feed(old(sm.Context()), [e], now).ctx
      ensures hal == old(hal) + Feed(old(sm.Context()), [e], now).calls
      ensures fed == old(fed) + [e] && forwarded == old(forwarded)
      ensures prevReport == old(prevReport) && prevValid == old(prevValid) && prevLed == old(prevLed)
    {
      FeedOne(sm.Context(), e, now);
      var r := sm.Process(e, now);
      DispatchActions(r.actions);
      fed := fed + [e];
    }

    /**
     * `on_usb_state_change`: the USB state becomes USB_ENUMERATED or
     * USB_SUSPENDED for the state machine, and the resulting actions are
     * dispatched.
     */
    method OnUsbStateChange(s: UsbState, now: u32)
      modifies this, sm
      ensures sm.Context() == Feed(old(sm.Context()), [UsbEvent(s)], now).ctx
      ensures hal == old(hal) + Feed(old(sm.Context()), [UsbEvent(s)], now).calls
      ensures fed == old(fed) + [UsbEvent(s)] && forwarded == old(forwarded)
      ensures prevReport == old(prevReport) && prevValid == old(prevValid) && prevLed == old(prevLed)
    {
      match s
      case Mounted =>
        FeedEvent(UsbEnumerated, now);
      case Suspended =>
        FeedEvent(UsbSuspended, now);
      case NotMounted =>
        FeedEvent(UsbSuspended, now);
    }

    /** `on_bt_event`: a disconnect forgets the previous report; a connect changes nothing. */
    method OnBtEvent(idx: u8, state: SlotState)
      modifies this
      ensures prevValid == (old(prevValid) && state == Connected)
      ensures prevReport == old(prevReport) && prevLed == old(prevLed)
      ensures hal == old(hal) && fed == old(fed) && forwarded == old(forwarded)
    {
      if state == Disconnected {
        prevValid := false;
      }
    }

    /**
     * `poll_hardware`: an edge of the power-LED reading is fed first, then a
     * boot-timer expiry; the reading is remembered for the next poll.
     */
    method PollHardware(now: u32, led: bool, timerExpired: bool)
      modifies this, sm
      ensures sm.Context() == Feed(old(sm.Context()), PollEvents(old(prevLed), led, timerExpired), now).ctx
      ensures hal == old(hal) + Feed(old(sm.Context()), PollEvents(old(prevLed), led, timerExpired), now).calls
      ensures fed == old(fed) + PollEvents(old(prevLed), led, timerExpired)
      ensures prevLed == led
      ensures prevReport == old(prevReport) && prevValid == old(prevValid) && forwarded == old(forwarded)
    {
      ghost var ctx0, hal0, fed0 := sm.Context(), hal, fed;
      ghost var edge := LedEvents(prevLed, led);
      FeedLedEdge(led, now);
      ghost var ctx1, hal1, fed1 := sm.Context(), hal, fed;
      if timerExpired {
        FeedEvent(BootTimeout, now);
        FeedConcat(ctx0, edge, [BootTimeout], now);
        Associative(hal0, Feed(ctx0, edge, now).calls, Feed(ctx1, [BootTimeout], now).calls);
        Associative(fed0, edge, [BootTimeout]);
      } else {
        assert Feed(ctx1, [], now) == Effect(ctx1, []);
        FeedConcat(ctx0, edge, [], now);
        assert edge + [] == edge;
      }
      prevLed := led;
    }

    /** The power-LED half of `poll_hardware`: the edge, if any, is fed; `prevLed` is not yet updated. */
    method FeedLedEdge(led: bool, now: u32)
      modifies this, sm
      ensures sm.Context() == Feed(old(sm.Context()), LedEvents(prevLed, led), now).ctx
      ensures hal == old(hal) + Feed(old(sm.Context()), LedEvents(prevLed, led), now).calls
      ensures fed == old(fed) + LedEvents(prevLed, led) && forwarded == old(forwarded)
      ensures prevReport == old(prevReport) && prevValid == old(prevValid) && prevLed == old(prevLed)
    {
      if led && !prevLed {
        FeedEvent(PowerLedOn, now);
      } else if !led && prevLed {
        FeedEvent(PowerLedOff, now);
      } else {
        assert Feed(sm.Context(), [], now) == Effect(sm.Context(), []);
      }
    }

    /**
     * `process_gamepad`: with the power state sampled on entry, a fresh
     * guide press while the PC is off or asleep requests a wake; the report
     * is forwarded to USB only if the PC was on; either way it becomes the
     * previous report.
     */
    method ProcessGamepad(report: Report, now: u32)
      modifies this, sm
      ensures sm.Context() == Feed(old(sm.Context()), GamepadEvents(old(sm.state), report, old(prevValid), old(prevReport)), now).ctx
      ensures hal == old(hal) + Feed(old(sm.Context()), GamepadEvents(old(sm.state), report, old(prevValid), old(prevReport)), now).calls
      ensures fed == old(fed) + GamepadEvents(old(sm.state), report, old(prevValid), old(prevReport))
      ensures forwarded == old(forwarded) + if old(sm.state) == On then [report] else []
      ensures WakeFires(old(sm.state), report, old(prevValid), old(prevReport)) ==> forwarded == old(forwarded)
      ensures prevReport == report && prevValid && prevLed == old(prevLed)
    {
      var pcState := sm.state;
      var guideNow := GuidePressed(report);
      var guidePrev := prevValid && GuidePressed(prevReport);
      if guideNow && !guidePrev && (pcState == Off || pcState == Sleeping) {
        FeedEvent(WakeRequested, now);
      } else {
        assert Feed(sm.Context(), [], now) == Effect(sm.Context(), []);
      }
      if pcState == On {
        forwarded := forwarded + [report];
      }
      prevReport := report;
      prevValid := true;
    }

    /**
     * One turn of `main`'s loop after the USB task: the hardware poll, then
     * the gamepad step if the Bluetooth slot handed out a report. The power
     * state the gamepad step samples is the one the poll left.
     */
    method Tick(now: u32, led: bool, timerExpired: bool, report: Option<Report>)
      modifies this, sm
      ensures fed == old(fed) + TickEvents(old(sm.Context()), old(prevLed), led, timerExpired, report, old(prevValid), old(prevReport), now)
      ensures sm.Context() == Feed(old(sm.Context()), TickEvents(old(sm.Context()), old(prevLed), led, timerExpired, report, old(prevValid), old(prevReport), now), now).ctx
      ensures hal == old(hal) + Feed(old(sm.Context()), TickEvents(old(sm.Context()), old(prevLed), led, timerExpired, report, old(prevValid), old(prevReport), now), now).calls
      ensures prevLed == led
      ensures report.Some? ==> prevReport == report.value && prevValid
      ensures report.Some? ==>
        forwarded == old(forwarded) + if PolledState(old(sm.Context()), old(prevLed), led, timerExpired, now) == On then [report.value] else []
      ensures report.None? ==> prevReport == old(prevReport) && prevValid == old(prevValid) && forwarded == old(forwarded)
    {
      ghost var ctx0, hal0, fed0 := sm.Context(), hal, fed;
      ghost var poll := PollEvents(prevLed, led, timerExpired);
      PollHardware(now, led, timerExpired);
      if report.Some? {
        ghost var ctx1 := sm.Context();
        assert ctx1.state == sm.state;
        ghost var wake := GamepadEvents(sm.state, report.value, prevValid, prevReport);
        ProcessGamepad(report.value, now);
        FeedConcat(ctx0, poll, wake, now);
        Associative(hal0, Feed(ctx0, poll, now).calls, Feed(ctx1, wake, now).calls);
        Associative(fed0, poll, wake);
      } else {
        assert poll + [] == poll;
      }
    }
  }
}
