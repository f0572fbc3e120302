/** The firmware's outer loop: each session is planned from the previous session's
    error and the live settings, runs as pass-through terminal or setup menu, and its
    end decides the next error. */
module Supervisor {
  import opened ConfigStore
  import opened KeyInput
  import SetupMenu
  import SerialBridge

  /** The previous session's error: none, or a textual reason. */
  datatype Error = NoError | Failure(reason: string)

  /** The display planes a session adds to the video controller, bottom first. */
  datatype Plane = FrameBufferPlane | MousePointerPlane

  /** What the session runs: the pass-through terminal, or the setup menu with a banner. */
  datatype Mode = PassThrough | Setup(banner: string)

  /** The choices made before a session starts. */
  datatype SessionPlan = SessionPlan(keyTable: KeyTable, baudRate: nat, video: VgaMode, planes: seq<Plane>, mode: Mode)

  /** The video mode used whenever the previous session ended with an error. */
  const SafeVgaMode := VgaMode(320, 240)

  /** The reason recorded when a session ended because the hot key was pressed. */
  const HotKeyReason := "ctrl-alt-del pressed"

  /** How a session's setup and run ended: normally, or by a fault carrying a message
      (the three kinds of exception main catches all become one). */
  datatype Outcome = Normal | Fault(msg: string)

  /** Planning a session from the previous error and the live settings. */
  function PlanSession(error: Error, live: Settings): (p: SessionPlan)
    requires IndicesInRange(live)
    ensures p.keyTable == Keyboards[live.keyboardIdx] && p.baudRate == BaudRates[live.baudRateIdx]
    ensures |p.planes| >= 1 && p.planes[0] == FrameBufferPlane
    ensures error.Failure? ==> p.video == SafeVgaMode && MousePointerPlane !in p.planes && p.mode == Setup(error.reason)
    ensures error.NoError? ==> p.video == VgaModes[live.vgaModeIdx] && p.mode == PassThrough
    ensures error.NoError? ==> (MousePointerPlane in p.planes <==> live.enableMouse)
  {
    var video := if error.Failure? then SafeVgaMode else VgaModes[live.vgaModeIdx];
    var planes := if error.NoError? && live.enableMouse then [FrameBufferPlane, MousePointerPlane] else [FrameBufferPlane];
    var mode := if error.Failure? then Setup(error.reason) else PassThrough;
    SessionPlan(Keyboards[live.keyboardIdx], BaudRates[live.baudRateIdx], video, planes, mode)
  }

  /** The error and hot-key flag after a session, from how it ended and the flag at its end. */
  datatype Aftermath = Aftermath(error: Error, hotKey: bool)

  function AfterSession(outcome: Outcome, hotKey: bool): (a: Aftermath)
    ensures outcome.Normal? ==> !a.hotKey && (a.error.Failure? <==> hotKey)
    ensures outcome.Normal? && hotKey ==> a.error == Failure(HotKeyReason)
    ensures outcome.Fault? ==> a.error == Failure(outcome.msg) && a.hotKey == hotKey
  {
    match outcome
    case Normal => Aftermath(if hotKey then Failure(HotKeyReason) else NoError, false)
    case Fault(msg) => Aftermath(Failure(msg), hotKey)
  }

  /** Whatever the settings say, the session after an error runs the setup menu in the
      safe video mode without a mouse pointer. */
  lemma ErrorForcesSafeSetup(error: Error, live: Settings)
    requires IndicesInRange(live) && error.Failure?
    ensures var p := PlanSession(error, live);
      p.video == SafeVgaMode && p.planes == [FrameBufferPlane] && p.mode.Setup?
  {
  }

  /** A fault is followed by the setup menu in the safe mode, showing the fault's
      message, and the hot-key flag is left as it was. */
  lemma FaultEntersSafeSetup(msg: string, hotKey: bool, live: Settings)
    requires IndicesInRange(live)
    ensures var a := AfterSession(Fault(msg), hotKey); var p := PlanSession(a.error, live);
      && p.video == SafeVgaMode && p.planes == [FrameBufferPlane] && p.mode == Setup(msg) && a.hotKey == hotKey
  {
  }

  /** A session that ends normally with the hot key pressed is followed by the setup
      menu in the safe mode with the hot-key banner, and the flag is cleared; one that
      ends without it is followed by a pass-through session with the settings' own
      mode and pointer. */
  lemma NormalEndDecidesNext(hotKey: bool, live: Settings)
    requires IndicesInRange(live)
    ensures var a := AfterSession(Normal, hotKey); var p := PlanSession(a.error, live);
      && !a.hotKey
      && (hotKey ==> p.video == SafeVgaMode && p.planes == [FrameBufferPlane] && p.mode == Setup(HotKeyReason))
      && (!hotKey ==> (p.video == VgaModes[live.vgaModeIdx] && p.mode == PassThrough
                       && (MousePointerPlane in p.planes <==> live.enableMouse)))
  {
  }

  /** The firmware state carried from one session to the next. */
  datatype Machine = Machine(error: Error, live: Settings, flash: Settings, hot: bool)

  /** One session's input: how its setup ends, the keys the setup menu would read and
      the events the pass-through loop would see. A fault is raised while the
      session is being set up, before it runs. */
  datatype Round = Round(outcome: Outcome, keys: seq<Key>, events: seq<SerialBridge.Event>)

  /** A session's effect, and whether it ended (false: its input ran out while it was still running). */
  datatype Cycle = Cycle(next: Machine, ended: bool)

  /** One session as main runs it: a fault while setting up records its message and
      leaves the hot-key flag alone; otherwise the setup menu runs when there is an
      error and the pass-through loop when there is none, and a session that ends
      sets the error from the hot-key flag and clears the flag. */
  function RunSession(st: Machine, r: Round): (c: Cycle)
    requires IndicesInRange(st.live)
    ensures IndicesInRange(c.next.live)
    ensures r.outcome.Fault? ==> c.ended && c.next == st.(error := Failure(r.outcome.msg))
    ensures r.outcome.Normal? && st.error.NoError? ==> c.next.live == st.live && c.next.flash == st.flash
    ensures c.ended && r.outcome.Normal? ==> !c.next.hot
  {
    match r.outcome
    case Fault(msg) =>
      var a := AfterSession(r.outcome, st.hot);
      Cycle(st.(error := a.error, hot := a.hotKey), true)
    case Normal =>
      if st.error.Failure? then
        var m := SetupMenu.Run(SetupMenu.Start(st.live, st.flash, st.hot), r.keys);
        SetupMenu.RunKeepsValid(SetupMenu.Start(st.live, st.flash, st.hot), r.keys);
        if !m.done then Cycle(st.(live := m.live, flash := m.flash, hot := m.hot), false)
        else
          var a := AfterSession(Normal, m.hot);
          Cycle(Machine(a.error, m.live, m.flash, a.hotKey), true)
      else
        var hot := st.hot || SerialBridge.HotKey in r.events;
        if !hot then Cycle(st, false)
        else
          var a := AfterSession(Normal, hot);
          Cycle(st.(error := a.error, hot := a.hotKey), true)
  }

  /** The plans of the sessions run, and the state after the last one. */
  datatype Trace = Trace(final: Machine, plans: seq<SessionPlan>, ended: bool)

  /** The supervisor loop over a sequence of rounds; it stops at a session that does not end. */
  function Sessions(st: Machine, rounds: seq<Round>): (t: Trace)
    requires IndicesInRange(st.live)
    ensures IndicesInRange(t.final.live)
    ensures |t.plans| <= |rounds|
    ensures rounds != [] ==> |t.plans| >= 1 && t.plans[0] == PlanSession(st.error, st.live)
    decreases |rounds|
  {
    if rounds == [] then Trace(st, [], true)
    else
      var c := RunSession(st, rounds[0]);
      var rest := if c.ended then Sessions(c.next, rounds[1..]) else Trace(c.next, [], false);
      Trace(rest.final, [PlanSession(st.error, st.live)] + rest.plans, rest.ended)
  }

  /** A pass-through session ended by the hot key is followed by the setup menu in
      the safe mode with the hot-key banner, the flag cleared and the settings kept. */
  lemma HotKeyEntersSafeSetup(st: Machine, r: Round, rounds: seq<Round>)
    requires IndicesInRange(st.live) && st.error.NoError? && r.outcome.Normal?
    requires SerialBridge.HotKey in r.events && rounds != []
    ensures var t := Sessions(st, [r] + rounds);
      && |t.plans| >= 2 && t.plans[0].mode == PassThrough
      && t.plans[1].video == SafeVgaMode && t.plans[1].planes == [FrameBufferPlane]
      && t.plans[1].mode == Setup(HotKeyReason)
      && t.plans[1].keyTable == Keyboards[st.live.keyboardIdx] && t.plans[1].baudRate == BaudRates[st.live.baudRateIdx]
  {
    var c := RunSession(st, r);
    assert c.ended && c.next == st.(error := Failure(HotKeyReason), hot := false);
    assert ([r] + rounds)[1..] == rounds;
  }

  /** A fault in any session is followed by the setup menu in the safe mode showing
      the fault's message, and the live settings are kept. */
  lemma FaultThenSafeSetup(st: Machine, msg: string, r: Round, rounds: seq<Round>)
    requires IndicesInRange(st.live) && r.outcome == Fault(msg) && rounds != []
    ensures var t := Sessions(st, [r] + rounds);
      && |t.plans| >= 2
      && t.plans[1].video == SafeVgaMode && t.plans[1].planes == [FrameBufferPlane]
      && t.plans[1].mode == Setup(msg)
      && t.plans[1].keyTable == Keyboards[st.live.keyboardIdx]
  {
    assert ([r] + rounds)[1..] == rounds;
  }

  /** Leaving the setup menu by "exit" or ESC ESC (not by the hot key) clears the error:
      the next session is pass-through with the video mode and pointer of the settings
      the menu left live. */
  lemma SetupExitResumesPassThrough(st: Machine, r: Round, rounds: seq<Round>)
    requires IndicesInRange(st.live) && st.error.Failure? && r.outcome.Normal? && rounds != []
    requires var m := SetupMenu.Run(SetupMenu.Start(st.live, st.flash, st.hot), r.keys); m.done && !m.hot
    ensures var m := SetupMenu.Run(SetupMenu.Start(st.live, st.flash, st.hot), r.keys);
      var t := Sessions(st, [r] + rounds);
      && |t.plans| >= 2 && t.plans[1].mode == PassThrough
      && t.plans[1].video == VgaModes[m.live.vgaModeIdx]
      && (MousePointerPlane in t.plans[1].planes <==> m.live.enableMouse)
  {
    SetupMenu.RunKeepsValid(SetupMenu.Start(st.live, st.flash, st.hot), r.keys);
    assert ([r] + rounds)[1..] == rounds;
  }

  /** One pass of main's loop body after the plan is made: set up and run the session
      the previous error calls for, then record how it ended. Returns the new error and
      whether the session ended. */
  method RunRound(dev: Device, error: Error, r: Round) returns (error': Error, ended: bool)
    requires IndicesInRange(dev.settings)
    modifies dev
    ensures RunSession(Machine(error, old(dev.settings), old(dev.flash), old(dev.ctrlAltDel)), r)
         == Cycle(Machine(error', dev.settings, dev.flash, dev.ctrlAltDel), ended)
  {
    error' := error;
    match r.outcome
    case Fault(msg) =>
      error' := Failure(msg);
      ended := true;
    case Normal =>
      if error.Failure? {
        ended := SetupMenu.RunOsm(dev, r.keys);
        SetupMenu.RunKeepsValid(SetupMenu.Start(old(dev.settings), old(dev.flash), old(dev.ctrlAltDel)), r.keys);
      } else {
        var term := new SerialBridge.Terminal([]);
        var wire, ticks := SerialBridge.RunAnsiterm(dev, term, r.events);
        ended := dev.ctrlAltDel;
      }
      if ended {
        error' := NoError;
        if dev.ctrlAltDel {
          error' := Failure(HotKeyReason);
        }
        dev.ctrlAltDel := false;
      }
  }

  /** A session that ends hands the rest of the rounds to the next state. */
  lemma {:induction false} TraceContinues(whole: Trace, done: seq<SessionPlan>, st: Machine, rest: seq<Round>, next: Machine)
    requires IndicesInRange(st.live) && rest != []
    requires whole.plans == done + Sessions(st, rest).plans && whole.final == Sessions(st, rest).final
    requires RunSession(st, rest[0]) == Cycle(next, true)
    ensures IndicesInRange(next.live)
    ensures whole.plans == done + [PlanSession(st.error, st.live)] + Sessions(next, rest[1..]).plans
    ensures whole.final == Sessions(next, rest[1..]).final
  {
    assert done + ([PlanSession(st.error, st.live)] + Sessions(next, rest[1..]).plans)
        == done + [PlanSession(st.error, st.live)] + Sessions(next, rest[1..]).plans;
  }

  /** A session that does not end is the last one: its plan is the last plan and its
      state the final state. */
  lemma TraceStops(whole: Trace, done: seq<SessionPlan>, st: Machine, rest: seq<Round>, next: Machine)
    requires IndicesInRange(st.live) && rest != []
    requires whole.plans == done + Sessions(st, rest).plans && whole.final == Sessions(st, rest).final
    requires RunSession(st, rest[0]) == Cycle(next, false)
    ensures whole.plans == done + [PlanSession(st.error, st.live)] && whole.final == next
  {
  }

  /** main: read the settings, then run session after session. Returns the plan of
      every session started and the error left for the next one. */
  method RunFirmware(dev: Device, d: BuildDefaults, rounds: seq<Round>) returns (plans: seq<SessionPlan>, error: Error)
    requires dev.flash.magic == MAGIC ==> IndicesInRange(dev.flash)
    modifies dev
    ensures var t := Sessions(Machine(NoError, Load(old(dev.flash), d), old(dev.flash), old(dev.ctrlAltDel)), rounds);
      && plans == t.plans && error == t.final.error && dev.settings == t.final.live
      && dev.flash == t.final.flash && dev.ctrlAltDel == t.final.hot
  {
    dev.ReadSettings(d);
    plans, error := Supervise(dev, rounds);
  }

  /** main's endless loop, starting with no error. */
  method Supervise(dev: Device, rounds: seq<Round>) returns (plans: seq<SessionPlan>, error: Error)
    requires IndicesInRange(dev.settings)
    modifies dev
    ensures var t := Sessions(Machine(NoError, old(dev.settings), old(dev.flash), old(dev.ctrlAltDel)), rounds);
      && plans == t.plans && error == t.final.error && dev.settings == t.final.live
      && dev.flash == t.final.flash && dev.ctrlAltDel == t.final.hot
  {
    error := NoError;
    plans := [];
    ghost var whole := Sessions(Machine(NoError, dev.settings, dev.flash, dev.ctrlAltDel), rounds);
    var i := 0;
    while i < |rounds|
      invariant 0 <= i <= |rounds|
      invariant IndicesInRange(dev.settings)
      invariant var t := Sessions(Machine(error, dev.settings, dev.flash, dev.ctrlAltDel), rounds[i..]);
        whole.plans == plans + t.plans && whole.final == t.final
    {
      ghost var st := Machine(error, dev.settings, dev.flash, dev.ctrlAltDel);
      ghost var done := plans;
      var r := rounds[i];
      assert rounds[i..][0] == r && rounds[i..][1..] == rounds[i + 1..];
      plans := plans + [PlanSession(error, dev.settings)];
      var ended;
      error, ended := RunRound(dev, error, r);
      ghost var next := Machine(error, dev.settings, dev.flash, dev.ctrlAltDel);
      if !ended {
        TraceStops(whole, done, st, rounds[i..], next);
        return;
      }
      TraceContinues(whole, done, st, rounds[i..], next);
      i := i + 1;
    }
  }
}
