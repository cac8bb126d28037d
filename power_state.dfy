/**
 * The PC power state machine of firmware/src/pc_power_state.c.
 *
 * The firmware keeps one context (current state plus the time of the last
 * transition) and feeds it events; each event either moves the machine along
 * one of seventeen transitions, returning the hardware actions to perform, or
 * is ignored and leaves the context as it was.
 *
 * `Step` is the pure transition function (the `handle_*` switches, with
 * `transition` and `no_change`); `PowerMachine` is the context object that
 * `pc_power_sm_process` updates in place.
 */
module PowerState {
  import opened CTypes

  datatype State = Off | Booting | On | Sleeping

  datatype Event =
    | WakeRequested
    | ButtonPressed
    | ButtonLongPressed
    | UsbEnumerated
    | UsbSuspended
    | PowerLedOn
    | PowerLedOff
    | BootTimeout

  /** Action bitmask (`uint32_t actions`): which hardware operations the caller must perform. */
  type Actions = bv32

  const ACTION_NONE: Actions := 0
  const ACTION_TRIGGER_POWER: Actions := 1
  const ACTION_START_BOOT_TIMER: Actions := 2
  const ACTION_CANCEL_BOOT_TIMER: Actions := 4

  /** `pc_power_sm_t`. */
  datatype Ctx = Ctx(state: State, lastTransitionMs: u32)

  /** `pc_power_result_t`. */
  datatype PowerResult = PowerResult(newState: State, actions: Actions, transitioned: bool)

  /** The context after an event together with the result handed back to the caller. */
  datatype Outcome = Outcome(ctx: Ctx, result: PowerResult)

  /** The context `pc_power_sm_init` establishes. */
  const INITIAL: Ctx := Ctx(Off, 0)

  predicate HasAction(actions: Actions, bit: Actions)
  {
    actions & bit != 0
  }

  /** `transition`: enter `newState`, stamping the context with `now`. */
  function Transition(newState: State, actions: Actions, now: u32): Outcome
  {
    Outcome(Ctx(newState, now), PowerResult(newState, actions, true))
  }

  /** `no_change`: the event is ignored. */
  function NoChange(ctx: Ctx): Outcome
  {
    Outcome(ctx, PowerResult(ctx.state, ACTION_NONE, false))
  }

  function HandleOff(ctx: Ctx, e: Event, now: u32): Outcome
  {
    match e
    case WakeRequested => Transition(Booting, ACTION_TRIGGER_POWER | ACTION_START_BOOT_TIMER, now)
    case ButtonPressed => Transition(Booting, ACTION_START_BOOT_TIMER, now)
    case PowerLedOn => Transition(Booting, ACTION_START_BOOT_TIMER, now)
    case UsbEnumerated => Transition(On, ACTION_NONE, now)
    case _ => NoChange(ctx)
  }

  function HandleBooting(ctx: Ctx, e: Event, now: u32): Outcome
  {
    match e
    case UsbEnumerated => Transition(On, ACTION_CANCEL_BOOT_TIMER, now)
    case PowerLedOff => Transition(Off, ACTION_CANCEL_BOOT_TIMER, now)
    case BootTimeout => Transition(Off, ACTION_NONE, now)
    case ButtonLongPressed => Transition(Off, ACTION_CANCEL_BOOT_TIMER, now)
    case _ => NoChange(ctx)
  }

  function HandleOn(ctx: Ctx, e: Event, now: u32): Outcome
  {
    match e
    case UsbSuspended => Transition(Sleeping, ACTION_NONE, now)
    case PowerLedOff => Transition(Off, ACTION_NONE, now)
    case ButtonLongPressed => Transition(Off, ACTION_NONE, now)
    case _ => NoChange(ctx)
  }

  function HandleSleeping(ctx: Ctx, e: Event, now: u32): Outcome
  {
    match e
    case WakeRequested => Transition(Booting, ACTION_TRIGGER_POWER | ACTION_START_BOOT_TIMER, now)
    case ButtonPressed => Transition(Booting, ACTION_START_BOOT_TIMER, now)
    case UsbEnumerated => Transition(On, ACTION_NONE, now)
    case PowerLedOn => Transition(Booting, ACTION_START_BOOT_TIMER, now)
    case PowerLedOff => Transition(Off, ACTION_NONE, now)
    case ButtonLongPressed => Transition(Off, ACTION_NONE, now)
    case _ => NoChange(ctx)
  }

  /**
   * `pc_power_sm_process`: the machine's response to one event.
   *
   * Ignored events leave the context untouched; a transition always changes
   * the state and stamps the time. TRIGGER_POWER is requested exactly for a
   * wake request while the PC is off or asleep, START_BOOT_TIMER exactly on
   * entering BOOTING, and CANCEL_BOOT_TIMER exactly when BOOTING is left by
   * enumeration, LED-off or a long press (a boot timeout has nothing to cancel).
   */
  function Step(ctx: Ctx, e: Event, now: u32): (o: Outcome)
    ensures o.result.newState == o.ctx.state
    ensures o.result.transitioned ==> o.ctx == Ctx(o.result.newState, now) && o.ctx.state != ctx.state
    ensures !o.result.transitioned ==> o.ctx == ctx && o.result.actions == ACTION_NONE
    ensures HasAction(o.result.actions, ACTION_TRIGGER_POWER)
      <==> e == WakeRequested && (ctx.state == Off || ctx.state == Sleeping)
    ensures HasAction(o.result.actions, ACTION_START_BOOT_TIMER)
      <==> o.result.transitioned && o.result.newState == Booting
    ensures HasAction(o.result.actions, ACTION_CANCEL_BOOT_TIMER)
      <==> ctx.state == Booting && (e == UsbEnumerated || e == PowerLedOff || e == ButtonLongPressed)
    ensures o.result.actions & !(ACTION_TRIGGER_POWER | ACTION_START_BOOT_TIMER | ACTION_CANCEL_BOOT_TIMER) == 0
  {
    match ctx.state
    case Off => HandleOff(ctx, e, now)
    case Booting => HandleBooting(ctx, e, now)
    case On => HandleOn(ctx, e, now)
    case Sleeping => HandleSleeping(ctx, e, now)
  }

  /** USB enumeration means the PC is up: every state but ON moves to ON, and ON ignores it. */
  lemma UsbEnumeratedReachesOn(ctx: Ctx, now: u32)
    ensures Step(ctx, UsbEnumerated, now).ctx.state == On
    ensures Step(ctx, UsbEnumerated, now).result.transitioned <==> ctx.state != On
  {
  }

  /** One row of the transition table the state machine implements. */
  datatype Row = Row(from: State, event: Event, to: State, actions: Actions)

  /** The seventeen transitions `pc_power_sm_process` takes. */
  const TABLE: seq<Row> := [
    Row(Off, WakeRequested, Booting, ACTION_TRIGGER_POWER | ACTION_START_BOOT_TIMER),
    Row(Off, ButtonPressed, Booting, ACTION_START_BOOT_TIMER),
    Row(Off, PowerLedOn, Booting, ACTION_START_BOOT_TIMER),
    Row(Off, UsbEnumerated, On, ACTION_NONE),
    Row(Booting, UsbEnumerated, On, ACTION_CANCEL_BOOT_TIMER),
    Row(Booting, PowerLedOff, Off, ACTION_CANCEL_BOOT_TIMER),
    Row(Booting, BootTimeout, Off, ACTION_NONE),
    Row(Booting, ButtonLongPressed, Off, ACTION_CANCEL_BOOT_TIMER),
    Row(On, UsbSuspended, Sleeping, ACTION_NONE),
    Row(On, PowerLedOff, Off, ACTION_NONE),
    Row(On, ButtonLongPressed, Off, ACTION_NONE),
    Row(Sleeping, WakeRequested, Booting, ACTION_TRIGGER_POWER | ACTION_START_BOOT_TIMER),
    Row(Sleeping, ButtonPressed, Booting, ACTION_START_BOOT_TIMER),
    Row(Sleeping, UsbEnumerated, On, ACTION_NONE),
    Row(Sleeping, PowerLedOn, Booting, ACTION_START_BOOT_TIMER),
    Row(Sleeping, PowerLedOff, Off, ACTION_NONE),
    Row(Sleeping, ButtonLongPressed, Off, ACTION_NONE)
  ]

  /** The first row of `rows` for the pair (s, e). */
  function Lookup(rows: seq<Row>, s: State, e: Event): (r: Option<Row>)
    ensures r.Some? ==> r.value in rows && r.value.from == s && r.value.event == e
    ensures r.None? ==> forall i :: 0 <= i < |rows| ==> !(rows[i].from == s && rows[i].event == e)
  {
    if rows == [] then None
    else if rows[0].from == s && rows[0].event == e then Some(rows[0])
    else Lookup(rows[1..], s, e)
  }

  /** `row` is what `Step` does from its state on its event, whatever the time stamps. */
  predicate RowHolds(row: Row, t: u32, now: u32)
  {
    Step(Ctx(row.from, t), row.event, now) == Outcome(Ctx(row.to, now), PowerResult(row.to, row.actions, true))
  }

  /** Every row of the table is a transition of `Step`. */
  lemma {:induction false} RowsAreSteps(t: u32, now: u32)
    ensures forall i :: 0 <= i < |TABLE| ==> RowHolds(TABLE[i], t, now)
  {
    RowsHold0To3(t, now);
    RowsHold3To6(t, now);
    RowsHold6To9(t, now);
    RowsHold9To12(t, now);
    RowsHold12To15(t, now);
    RowsHold15To17(t, now);
  }

  lemma {:induction false} RowsHold0To3(t: u32, now: u32)
    ensures forall i :: 0 <= i < 3 ==> RowHolds(TABLE[i], t, now)
  {
    assert RowHolds(TABLE[0], t, now);
    assert RowHolds(TABLE[1], t, now);
    assert RowHolds(TABLE[2], t, now);
  }

  lemma {:induction false} RowsHold3To6(t: u32, now: u32)
    ensures forall i :: 3 <= i < 6 ==> RowHolds(TABLE[i], t, now)
  {
    assert RowHolds(TABLE[3], t, now);
    assert RowHolds(TABLE[4], t, now);
    assert RowHolds(TABLE[5], t, now);
  }

  lemma {:induction false} RowsHold6To9(t: u32, now: u32)
    ensures forall i :: 6 <= i < 9 ==> RowHolds(TABLE[i], t, now)
  {
    assert RowHolds(TABLE[6], t, now);
    assert RowHolds(TABLE[7], t, now);
    assert RowHolds(TABLE[8], t, now);
  }

  lemma {:induction false} RowsHold9To12(t: u32, now: u32)
    ensures forall i :: 9 <= i < 12 ==> RowHolds(TABLE[i], t, now)
  {
    assert RowHolds(TABLE[9], t, now);
    assert RowHolds(TABLE[10], t, now);
    assert RowHolds(TABLE[11], t, now);
  }

  lemma {:induction false} RowsHold12To15(t: u32, now: u32)
    ensures forall i :: 12 <= i < 15 ==> RowHolds(TABLE[i], t, now)
  {
    assert RowHolds(TABLE[12], t, now);
    assert RowHolds(TABLE[13], t, now);
    assert RowHolds(TABLE[14], t, now);
  }

  lemma {:induction false} RowsHold15To17(t: u32, now: u32)
    ensures forall i :: 15 <= i < 17 ==> RowHolds(TABLE[i], t, now)
  {
    assert RowHolds(TABLE[15], t, now);
    assert RowHolds(TABLE[16], t, now);
  }

  /** Every transition of `Step` is a row of the table. */
  lemma StepsAreRows(ctx: Ctx, e: Event, now: u32)
    ensures Step(ctx, e, now).result.transitioned ==>
      Row(ctx.state, e, Step(ctx, e, now).result.newState, Step(ctx, e, now).result.actions) in TABLE
  {
  }

  /**
   * `Step` is exactly the table: a listed pair takes its row's transition and
   * actions and stamps the time; every unlisted pair is ignored.
   */
  lemma StepFollowsTable(ctx: Ctx, e: Event, now: u32)
    ensures match Lookup(TABLE, ctx.state, e)
      case Some(row) =>
        Step(ctx, e, now) == Outcome(Ctx(row.to, now), PowerResult(row.to, row.actions, true))
      case None =>
        Step(ctx, e, now) == Outcome(ctx, PowerResult(ctx.state, ACTION_NONE, false))
  {
    var o := Step(ctx, e, now);
    match Lookup(TABLE, ctx.state, e)
    case Some(row) =>
      var i :| 0 <= i < |TABLE| && TABLE[i] == row;
      RowsAreSteps(ctx.lastTransitionMs, now);
      assert RowHolds(TABLE[i], ctx.lastTransitionMs, now);
      assert Ctx(TABLE[i].from, ctx.lastTransitionMs) == ctx;
    case None =>
      // a transition would be a listed row, which the failed lookup rules out
      StepsAreRows(ctx, e, now);
  }

  /** `pc_power_state_name`. */
  function StateName(s: State): (name: string)
    ensures name != "UNKNOWN" && |name| > 3 && name[..3] == "PC_"
  {
    match s
    case Off => "PC_OFF"
    case Booting => "PC_BOOTING"
    case On => "PC_ON"
    case Sleeping => "PC_SLEEPING"
  }

  /** `pc_power_event_name`. */
  function EventName(e: Event): (name: string)
    ensures name != "UNKNOWN" && |name| > 0
  {
    match e
    case WakeRequested => "WAKE_REQUESTED"
    case ButtonPressed => "BUTTON_PRESSED"
    case ButtonLongPressed => "BUTTON_LONG_PRESSED"
    case UsbEnumerated => "USB_ENUMERATED"
    case UsbSuspended => "USB_SUSPENDED"
    case PowerLedOn => "POWER_LED_ON"
    case PowerLedOff => "POWER_LED_OFF"
    case BootTimeout => "BOOT_TIMEOUT"
  }

  /** Distinct states and distinct events have distinct names. */
  lemma NamesAreDistinct(s1: State, s2: State, e1: Event, e2: Event)
    ensures StateName(s1) == StateName(s2) ==> s1 == s2
    ensures EventName(e1) == EventName(e2) ==> e1 == e2
  {
  }

  /** `pc_power_sm_t` as the firmware holds it: a context updated in place by each event. */
  class PowerMachine {
    var state: State
    var lastTransitionMs: u32

    function Context(): Ctx
      reads this
    {
      Ctx(state, lastTransitionMs)
    }

    /** `pc_power_sm_init`: the machine starts in OFF with no transition recorded. */
    constructor Init()
      ensures state == Off && lastTransitionMs == 0
      ensures Context() == INITIAL
    {
      state := Off;
      lastTransitionMs := 0;
    }

    /**
     * `pc_power_sm_process`: apply one event. The new context and the result
     * are those of `Step`; an ignored event writes nothing.
     */
    method Process(e: Event, now: u32) returns (r: PowerResult)
      modifies this
      ensures Context() == Step(old(Context()), e, now).ctx
      ensures r == Step(old(Context()), e, now).result
      ensures r.newState == state
      ensures !r.transitioned ==> unchanged(this)
    {
      var o := Step(Context(), e, now);
      if o.result.transitioned {
        state := o.result.newState;
        lastTransitionMs := now;
      }
      r := o.result;
    }
  }
}
