// The status-LED driver of main/system/led.c: the fault latch, the channel
// arbiter, one iteration of the idle "breathing" task and one iteration of the
// notification scanner, over an object that holds the file's globals.

module Led {
  import opened LedTrace
  import opened LedPlan

  /** Default GPIO of the LED (the board without the SEA build switch). */
  const ErrLedPin: nat := 17
  /** GPIO of the LED on ESP32-PICO-V3-02 packages. */
  const PicoErrLedPin: nat := 20
  /** The efuse package id of the ESP32-PICO-V3-02 (EFUSE_RD_CHIP_VER_PKG_ESP32PICOV302). */
  const PkgEsp32PicoV302: nat := 6
  /** Number of peer slots the scanner walks (BT_MAX_DEV). */
  const BtMaxDev: nat := 7

  /** The pin `err_led_init` binds the channel to. */
  function SelectPin(package: nat): (gpio: nat)
    ensures gpio == PicoErrLedPin <==> package == PkgEsp32PicoV302
    ensures gpio == ErrLedPin || gpio == PicoErrLedPin
  {
    if package == PkgEsp32PicoV302 then PicoErrLedPin else ErrLedPin
  }

  /** The first loop of `led_notify_task`: is any slot connected and unmuted?
      `scan[i]` is the answer of adapter_is_device_connected_and_unmuted(i). */
  method ScanForActive(scan: seq<bool>) returns (found: bool)
    ensures found <==> exists i :: 0 <= i < |scan| && scan[i]
  {
    found := false;
    for i := 0 to |scan|
      invariant !found
      invariant forall j :: 0 <= j < i ==> !scan[j]
    {
      if scan[i] {
        found := true;
        break;
      }
    }
  }

  /** The globals of the driver at one instant, without the trace. */
  datatype LedState = LedState(latched: bool, parked: bool, duty: nat, freq: nat, pin: nat)

  class ErrLed {
    /** The ERR_LED_SET bit of `led_flags`. */
    var faultLatched: bool
    /** Whether `err_led_task` is suspended. */
    var idleParked: bool
    /** The duty level last committed on LEDC channel 0 (a fade commits its target). */
    var duty: nat
    /** The frequency of LEDC timer 0. */
    var freq: nat
    /** `err_led_pin`. */
    var pin: nat
    /** Every driver and scheduler call made so far, oldest first. */
    var trace: seq<Event>

    /** The fields are what the trace leaves behind. */
    ghost predicate Valid()
      reads this
    {
      && Run(PowerOn, trace) == View(Some(duty), Some(freq), Some(idleParked), Some(pin))
      && (pin == ErrLedPin || pin == PicoErrLedPin)
    }

    function State(): LedState
      reads this
    {
      LedState(faultLatched, idleParked, duty, freq, pin)
    }

    /** Power-on values of the globals, then `err_led_init(package)`: configure the timer
        and channel, force the channel off, start the idle task, `err_led_clear()`, start
        the notification task. The idle task therefore ends parked and the channel off. */
    constructor Init(package: nat, cfg: HwConfig)
      ensures Valid()
      ensures pin == SelectPin(package)
      ensures !faultLatched && idleParked && duty == cfg.offDuty && freq == cfg.pulseHz
      ensures trace == [TimerConfig(cfg.pulseHz), ChannelConfig(SelectPin(package), cfg.offDuty),
                        FadeInstall, SetDuty(cfg.offDuty), CreateIdleTask,
                        SuspendIdle, SetDuty(cfg.offDuty), CreateNotifyTask]
    {
      faultLatched := false;
      pin := SelectPin(package);
      freq := cfg.pulseHz;
      duty := cfg.offDuty;
      idleParked := false;
      ghost var t1 := [TimerConfig(cfg.pulseHz)];
      ghost var t2 := t1 + [ChannelConfig(SelectPin(package), cfg.offDuty)];
      ghost var t3 := t2 + [FadeInstall];
      ghost var t4 := t3 + [SetDuty(cfg.offDuty)];
      RunSnoc(PowerOn, [], TimerConfig(cfg.pulseHz));
      assert [] + t1 == t1;
      RunSnoc(PowerOn, t1, ChannelConfig(SelectPin(package), cfg.offDuty));
      RunSnoc(PowerOn, t2, FadeInstall);
      RunSnoc(PowerOn, t3, SetDuty(cfg.offDuty));
      RunSnoc(PowerOn, t4, CreateIdleTask);
      trace := [TimerConfig(cfg.pulseHz), ChannelConfig(SelectPin(package), cfg.offDuty),
                FadeInstall, SetDuty(cfg.offDuty), CreateIdleTask];
      new;
      assert trace == t4 + [CreateIdleTask];
      ClearFault(cfg);
      LogCall(CreateNotifyTask);
    }

    /** `err_led_cfg_update`: retune timer 0 to the configured frequency. */
    method CfgUpdate(cfg: HwConfig)
      requires Valid()
      modifies this`trace, this`freq
      ensures Valid()
      ensures freq == cfg.pulseHz
      ensures trace == old(trace) + [SetFreq(cfg.pulseHz)]
    {
      RunSnoc(PowerOn, trace, SetFreq(cfg.pulseHz));
      trace := trace + [SetFreq(cfg.pulseHz)];
      freq := cfg.pulseHz;
    }

    /** `err_led_set`: park the idle task, force the "on" duty, latch the fault. */
    method SetFault(cfg: HwConfig)
      requires Valid()
      modifies this`trace, this`duty, this`idleParked, this`faultLatched
      ensures Valid()
      ensures faultLatched && idleParked && duty == cfg.onDuty
      ensures trace == old(trace) + [SuspendIdle, SetDuty(cfg.onDuty)]
    {
      SuspendIdleTask();
      SetDutyAndUpdate(cfg.onDuty);
      faultLatched := true;
    }

    /** `err_led_clear`: once a fault is latched it does nothing; otherwise it parks the
        idle task and forces the "off" duty. It never clears the latch. */
    method ClearFault(cfg: HwConfig)
      requires Valid()
      modifies this`trace, this`duty, this`idleParked
      ensures Valid()
      ensures old(faultLatched) ==>
        trace == old(trace) && duty == old(duty) && idleParked == old(idleParked)
      ensures !old(faultLatched) ==>
        idleParked && duty == cfg.offDuty && trace == old(trace) + [SuspendIdle, SetDuty(cfg.offDuty)]
    {
      if !faultLatched {
        SuspendIdleTask();
        SetDutyAndUpdate(cfg.offDuty);
      }
    }

    /** `err_led_pulse`: resume the idle task, whatever the latch says. */
    method Pulse()
      requires Valid()
      modifies this`trace, this`idleParked
      ensures Valid()
      ensures !idleParked
      ensures trace == old(trace) + [ResumeIdle]
    {
      RunSnoc(PowerOn, trace, ResumeIdle);
      trace := trace + [ResumeIdle];
      idleParked := false;
    }

    /** `err_led_get_pin`. */
    method GetPin() returns (gpio: nat)
      requires Valid()
      ensures gpio == pin
      ensures gpio == ErrLedPin || gpio == PicoErrLedPin
    {
      gpio := pin;
    }

    /** One whole iteration of `err_led_task`, from the latch test to the end of the loop
        body, which only runs while it is not parked: breathe once if no fault is latched,
        otherwise park itself without touching the channel. */
    method IdleStep(cfg: HwConfig)
      requires Valid()
      requires !idleParked
      modifies this`trace, this`duty, this`idleParked
      ensures Valid()
      ensures faultLatched ==>
        idleParked && duty == old(duty) && trace == old(trace) + [SuspendIdle]
      ensures !faultLatched ==>
        !idleParked && duty == cfg.dutyMin && trace == old(trace) + BreathEvents(cfg)
    {
      if !faultLatched {
        FadeTo(cfg.dutyMax, cfg.fadeTimeMs);
        TaskDelay(cfg.fadeCycleDelayMs);
        FadeTo(cfg.dutyMin, cfg.fadeTimeMs);
        TaskDelay(cfg.fadeCycleDelayMs);
      } else {
        SuspendIdleTask();
      }
    }

    /** One iteration of `led_notify_task`. `scan[i]` and `recheck[i]` are the answers of
        adapter_is_device_connected_and_unmuted(i) in the scan loop and in the blink loop.
        The latch is not consulted. */
    method NotifyStep(scan: seq<bool>, recheck: seq<bool>, cfg: HwConfig)
      requires Valid()
      requires |scan| == BtMaxDev && |recheck| == BtMaxDev
      modifies this`trace, this`duty, this`idleParked
      ensures Valid()
      ensures trace == old(trace) + NotifyEvents(scan, recheck, cfg)
      ensures SomeActive(scan) ==> idleParked && duty == cfg.offDuty
      ensures !SomeActive(scan) ==> idleParked == old(idleParked) && duty == old(duty)
    {
      var found := ScanForActive(scan);
      if !found {
        TaskDelay(IdleScanDelayMs);
        assert NotifyEvents(scan, recheck, cfg) == [Delay(IdleScanDelayMs)];
        return;
      }
      assert SomeActive(scan);
      SuspendIdleTask();
      SetDutyAndUpdate(cfg.offDuty);
      TaskDelay(SettleDelayMs);
      ghost var prologue := Prologue(cfg);
      assert trace == old(trace) + prologue;
      BlinkActiveSlots(recheck, cfg);
      TaskDelay(CycleDelayMs);
      assert trace == old(trace) + (prologue + BlinkPlan(recheck, |recheck|, cfg) + [Delay(CycleDelayMs)]);
      assert NotifyEvents(scan, recheck, cfg) == prologue + BlinkPlan(recheck, |recheck|, cfg) + [Delay(CycleDelayMs)];
    }

    /** The blink loop of `led_notify_task`: for each slot in ascending order that is
        still connected and unmuted, dev + 1 blinks and the inter-slot pause. */
    method BlinkActiveSlots(recheck: seq<bool>, cfg: HwConfig)
      requires Valid()
      requires duty == cfg.offDuty
      modifies this`trace, this`duty
      ensures Valid()
      ensures duty == cfg.offDuty
      ensures trace == old(trace) + BlinkPlan(recheck, |recheck|, cfg)
    {
      for dev := 0 to |recheck|
        invariant Valid()
        invariant duty == cfg.offDuty
        invariant trace == old(trace) + BlinkPlan(recheck, dev, cfg)
      {
        ghost var done := BlinkPlan(recheck, dev, cfg);
        if recheck[dev] {
          BlinkSlot(dev, cfg);
          assert BlinkPlan(recheck, dev + 1, cfg) == done + SlotGroup(dev, cfg);
        } else {
          assert BlinkPlan(recheck, dev + 1, cfg) == done + [];
        }
      }
    }

    /** One active slot of the blink loop: dev + 1 blinks, then the inter-slot pause. */
    method BlinkSlot(dev: nat, cfg: HwConfig)
      requires Valid()
      requires duty == cfg.offDuty
      modifies this`trace, this`duty
      ensures Valid()
      ensures duty == cfg.offDuty
      ensures trace == old(trace) + SlotGroup(dev, cfg)
    {
      var blinks := dev + 1;
      BlinkTimes(blinks, cfg);
      TaskDelay(PauseDevMs);
    }

    /** The innermost loop of `led_notify_task`: `blinks` on/off pairs, starting and
        ending at the "off" level. */
    method BlinkTimes(blinks: nat, cfg: HwConfig)
      requires Valid()
      requires duty == cfg.offDuty
      modifies this`trace, this`duty
      ensures Valid()
      ensures duty == cfg.offDuty
      ensures trace == old(trace) + Blinks(blinks, cfg)
    {
      for b := 0 to blinks
        invariant Valid()
        invariant duty == cfg.offDuty
        invariant trace == old(trace) + Blinks(b, cfg)
      {
        SetDutyAndUpdate(cfg.onDuty);
        TaskDelay(FlashOnMs);
        SetDutyAndUpdate(cfg.offDuty);
        TaskDelay(FlashOffMs);
      }
    }

    // Driver and scheduler calls. Each appends its event and moves the field it drives.

    /** ledc_set_duty_and_update on channel 0. */
    method SetDutyAndUpdate(level: nat)
      requires Valid()
      modifies this`trace, this`duty
      ensures Valid()
      ensures duty == level && trace == old(trace) + [SetDuty(level)]
    {
      RunSnoc(PowerOn, trace, SetDuty(level));
      trace := trace + [SetDuty(level)];
      duty := level;
    }

    /** ledc_set_fade_time_and_start on channel 0, without waiting. */
    method FadeTo(level: nat, ms: nat)
      requires Valid()
      modifies this`trace, this`duty
      ensures Valid()
      ensures duty == level && trace == old(trace) + [Fade(level, ms)]
    {
      RunSnoc(PowerOn, trace, Fade(level, ms));
      trace := trace + [Fade(level, ms)];
      duty := level;
    }

    /** vTaskSuspend(err_led_task_hdl). */
    method SuspendIdleTask()
      requires Valid()
      modifies this`trace, this`idleParked
      ensures Valid()
      ensures idleParked && trace == old(trace) + [SuspendIdle]
    {
      RunSnoc(PowerOn, trace, SuspendIdle);
      trace := trace + [SuspendIdle];
      idleParked := true;
    }

    /** vTaskDelay, in milliseconds. */
    method TaskDelay(ms: nat)
      requires Valid()
      modifies this`trace
      ensures Valid()
      ensures trace == old(trace) + [Delay(ms)]
    {
      LogCall(Delay(ms));
    }

    /** A call that moves none of the replayed state. */
    method LogCall(e: Event)
      requires Valid()
      requires Step(Run(PowerOn, trace), e) == Run(PowerOn, trace)
      modifies this`trace
      ensures Valid()
      ensures trace == old(trace) + [e]
    {
      RunSnoc(PowerOn, trace, e);
      trace := trace + [e];
    }
  }
}
