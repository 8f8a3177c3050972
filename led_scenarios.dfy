// Runs of the driver from power-on, each stated as what an observer of the
// channel and the tasks sees afterwards.

module LedScenarios {
  import opened LedTrace
  import opened LedPlan
  import opened Led

  /** After init the pin follows the package, no fault is latched, the channel is off
      and the idle task is parked (init ends with err_led_clear). */
  method InitState(package: nat, cfg: HwConfig) returns (gpio: nat, s: LedState)
    ensures gpio == if package == PkgEsp32PicoV302 then PicoErrLedPin else ErrLedPin
    ensures s == LedState(false, true, cfg.offDuty, cfg.pulseHz, gpio)
  {
    var led := new ErrLed.Init(package, cfg);
    gpio := led.GetPin();
    s := led.State();
  }

  /** init, set, clear: the latch wins and the channel stays at the "on" level. */
  method FaultSurvivesClear(package: nat, cfg: HwConfig) returns (s: LedState)
    ensures s.latched && s.parked && s.duty == cfg.onDuty
  {
    var led := new ErrLed.Init(package, cfg);
    led.SetFault(cfg);
    led.ClearFault(cfg);
    s := led.State();
  }

  /** Setting the fault twice leaves the same state as setting it once. */
  method SetFaultIdempotent(package: nat, cfg: HwConfig) returns (once: LedState, twice: LedState)
    ensures once == twice
    ensures once.latched && once.parked && once.duty == cfg.onDuty
  {
    var led := new ErrLed.Init(package, cfg);
    led.SetFault(cfg);
    once := led.State();
    led.SetFault(cfg);
    twice := led.State();
  }

  /** init, set, pulse, one idle iteration that starts at the top of the loop: the
      resumed idle task parks itself again and writes nothing, so the channel stays at
      the "on" level. */
  method FaultSurvivesPulse(package: nat, cfg: HwConfig) returns (s: LedState, added: seq<Event>)
    ensures s.latched && s.parked && s.duty == cfg.onDuty
    ensures added == [ResumeIdle, SuspendIdle]
  {
    var led := new ErrLed.Init(package, cfg);
    led.SetFault(cfg);
    var before := led.trace;
    led.Pulse();
    led.IdleStep(cfg);
    s := led.State();
    added := led.trace[|before|..];
  }

  /** init, pulse, one idle iteration: the idle task breathes up to the maximum and
      down to the minimum. */
  method PulseStartsBreathing(package: nat, cfg: HwConfig) returns (s: LedState, added: seq<Event>)
    ensures !s.latched && !s.parked && s.duty == cfg.dutyMin
    ensures added == [ResumeIdle] + BreathEvents(cfg)
  {
    var led := new ErrLed.Init(package, cfg);
    var before := led.trace;
    led.Pulse();
    led.IdleStep(cfg);
    s := led.State();
    added := led.trace[|before|..];
  }

  /** A scan with no active slot only waits: the state is what it was. */
  method QuietScan(package: nat, cfg: HwConfig, recheck: seq<bool>)
    returns (before: LedState, after: LedState, added: seq<Event>)
    requires |recheck| == BtMaxDev
    ensures before == after
    ensures added == [Delay(IdleScanDelayMs)]
  {
    var led := new ErrLed.Init(package, cfg);
    led.Pulse();
    before := led.State();
    var t := led.trace;
    led.NotifyStep(seq(BtMaxDev, _ => false), recheck, cfg);
    after := led.State();
    added := led.trace[|t|..];
  }

  /** With only slot 1 active, one scan blinks twice and leaves the channel off. */
  method OnlySlotOne(package: nat, cfg: HwConfig) returns (s: LedState, added: seq<Event>)
    ensures s.parked && s.duty == cfg.offDuty
    ensures added == [SuspendIdle, SetDuty(cfg.offDuty), Delay(SettleDelayMs)]
                     + BlinkPair(cfg) + BlinkPair(cfg) + [Delay(PauseDevMs), Delay(CycleDelayMs)]
  {
    var led := new ErrLed.Init(package, cfg);
    var t := led.trace;
    var r := [false, true, false, false, false, false, false];
    assert r[1];
    led.NotifyStep(r, r, cfg);
    OnlySlotOneBlinksTwice(cfg);
    s := led.State();
    added := led.trace[|t|..];
  }

  /** The scanner does not consult the latch: a scan with an active slot after a fault
      leaves the channel at the "off" level although the fault is still latched. */
  method ScanOverridesFault(package: nat, cfg: HwConfig, recheck: seq<bool>) returns (s: LedState)
    requires |recheck| == BtMaxDev
    requires cfg.onDuty != cfg.offDuty
    ensures s.latched && s.duty == cfg.offDuty && s.duty != cfg.onDuty
  {
    var led := new ErrLed.Init(package, cfg);
    led.SetFault(cfg);
    var scan := [true, false, false, false, false, false, false];
    assert scan[0];
    led.NotifyStep(scan, recheck, cfg);
    s := led.State();
  }
}
