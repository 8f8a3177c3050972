// Side effects of the status-LED driver, recorded as a trace of events, and
// the replay functions that read the channel and task state back off a trace.

module LedTrace {

  datatype Option<T> = None | Some(value: T)

  /** The build-time board configuration (`hw_config`) the driver reads. */
  datatype HwConfig = HwConfig(
    pulseHz: nat,           // led_pulse_hz
    dutyMax: nat,           // led_pulse_duty_max
    dutyMin: nat,           // led_pulse_duty_min
    fadeTimeMs: nat,        // led_pulse_fade_time_ms
    fadeCycleDelayMs: nat,  // led_pulse_fade_cycle_delay_ms
    onDuty: nat,            // led_pulse_on_duty_cycle
    offDuty: nat            // led_pulse_off_duty_cycle
  )

  /** One call into the LEDC driver or the scheduler. Delays are in milliseconds. */
  datatype Event =
    | TimerConfig(hz: nat)                 // ledc_timer_config
    | ChannelConfig(gpio: nat, level: nat) // ledc_channel_config
    | FadeInstall                          // ledc_fade_func_install
    | SetDuty(level: nat)                  // ledc_set_duty_and_update
    | Fade(level: nat, ms: nat)            // ledc_set_fade_time_and_start
    | SetFreq(hz: nat)                     // ledc_set_freq
    | Delay(ms: nat)                       // vTaskDelay
    | CreateIdleTask                       // xTaskCreatePinnedToCore(err_led_task)
    | CreateNotifyTask                     // xTaskCreatePinnedToCore(led_notify_task)
    | SuspendIdle                          // vTaskSuspend(err_led_task_hdl)
    | ResumeIdle                           // vTaskResume(err_led_task_hdl)

  /** What a trace says about the channel and the idle task; None until an event sets it. */
  datatype View = View(duty: Option<nat>, freq: Option<nat>, parked: Option<bool>, pin: Option<nat>)

  /** The view before any call. */
  const PowerOn: View := View(None, None, None, None)

  /** How one event moves the view. A fade commits its target level. */
  function Step(v: View, e: Event): View {
    match e
    case TimerConfig(hz) => v.(freq := Some(hz))
    case ChannelConfig(gpio, level) => v.(pin := Some(gpio), duty := Some(level))
    case SetDuty(level) => v.(duty := Some(level))
    case Fade(level, _) => v.(duty := Some(level))
    case SetFreq(hz) => v.(freq := Some(hz))
    case CreateIdleTask => v.(parked := Some(false))
    case SuspendIdle => v.(parked := Some(true))
    case ResumeIdle => v.(parked := Some(false))
    case _ => v
  }

  /** The view after the events of `t`, in order, starting from `v`. */
  function Run(v: View, t: seq<Event>): View {
    if t == [] then v else Step(Run(v, t[..|t| - 1]), t[|t| - 1])
  }

  /** Running two traces one after the other is running their concatenation. */
  lemma {:induction false} RunAppend(v: View, a: seq<Event>, b: seq<Event>)
    ensures Run(v, a + b) == Run(Run(v, a), b)
  {
    if b == [] {
      assert a + b == a;
    } else {
      var n := |b| - 1;
      assert (a + b)[..|a + b| - 1] == a + b[..n];
      assert (a + b)[|a + b| - 1] == b[n];
      RunAppend(v, a, b[..n]);
    }
  }

  /** Appending one event is one step. */
  lemma RunSnoc(v: View, t: seq<Event>, e: Event)
    ensures Run(v, t + [e]) == Step(Run(v, t), e)
  {
    assert (t + [e])[..|t|] == t;
  }
}
