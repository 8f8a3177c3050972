// The fixed schedules the two LED tasks write, as pure event sequences, and
// what they promise: blink counts, ascending slot order, the level the channel
// is left at, and the breathing oscillation.

module LedPlan {
  import opened LedTrace

  // Timings of the notification scanner (milliseconds).
  const FlashOnMs: nat := 100
  const FlashOffMs: nat := 200
  const PauseDevMs: nat := 500
  const CycleDelayMs: nat := 2000
  /** The pause of a scan that found nobody to report. */
  const IdleScanDelayMs: nat := 2000
  /** The settle delay after the channel is forced off. */
  const SettleDelayMs: nat := 100

  /** One blink: on, wait, off, wait. */
  function BlinkPair(cfg: HwConfig): seq<Event> {
    [SetDuty(cfg.onDuty), Delay(FlashOnMs), SetDuty(cfg.offDuty), Delay(FlashOffMs)]
  }

  /** `n` blinks in a row. */
  function Blinks(n: nat, cfg: HwConfig): seq<Event> {
    if n == 0 then [] else Blinks(n - 1, cfg) + BlinkPair(cfg)
  }

  /** What slot `dev` shows when it is active: dev + 1 blinks, then the inter-slot pause. */
  function SlotGroup(dev: nat, cfg: HwConfig): seq<Event> {
    Blinks(dev + 1, cfg) + [Delay(PauseDevMs)]
  }

  /** The blink loop over slots 0 .. n-1, given the answers of the recheck. */
  function BlinkPlan(recheck: seq<bool>, n: nat, cfg: HwConfig): seq<Event>
    requires n <= |recheck|
  {
    if n == 0 then []
    else BlinkPlan(recheck, n - 1, cfg) + (if recheck[n - 1] then SlotGroup(n - 1, cfg) else [])
  }

  /** The indices among 0 .. n-1 that are active, in the order they are listed. */
  function ActiveSlots(recheck: seq<bool>, n: nat): seq<nat>
    requires n <= |recheck|
  {
    if n == 0 then [] else ActiveSlots(recheck, n - 1) + (if recheck[n - 1] then [n - 1] else [])
  }

  /** The groups of the listed slots, one after the other. */
  function Groups(slots: seq<nat>, cfg: HwConfig): seq<Event> {
    if slots == [] then [] else Groups(slots[..|slots| - 1], cfg) + SlotGroup(slots[|slots| - 1], cfg)
  }

  /** Σ (dev + 1) over the active slots among 0 .. n-1. */
  function BlinkWeight(recheck: seq<bool>, n: nat): nat
    requires n <= |recheck|
  {
    if n == 0 then 0 else BlinkWeight(recheck, n - 1) + (if recheck[n - 1] then n else 0)
  }

  predicate SomeActive(scan: seq<bool>) {
    exists i :: 0 <= i < |scan| && scan[i]
  }

  /** The events of one iteration of the notification scanner. */
  function NotifyEvents(scan: seq<bool>, recheck: seq<bool>, cfg: HwConfig): seq<Event> {
    if !SomeActive(scan) then [Delay(IdleScanDelayMs)]
    else Prologue(cfg) + BlinkPlan(recheck, |recheck|, cfg) + [Delay(CycleDelayMs)]
  }

  /** What a scan with an active slot does before blinking: park the idle task, force the
      channel off, settle. */
  function Prologue(cfg: HwConfig): seq<Event> {
    [SuspendIdle, SetDuty(cfg.offDuty), Delay(SettleDelayMs)]
  }

  /** The events of one iteration of the idle task while no fault is latched. */
  function BreathEvents(cfg: HwConfig): seq<Event> {
    [Fade(cfg.dutyMax, cfg.fadeTimeMs), Delay(cfg.fadeCycleDelayMs),
     Fade(cfg.dutyMin, cfg.fadeTimeMs), Delay(cfg.fadeCycleDelayMs)]
  }

  /** `k` consecutive breathing iterations. */
  function BreathCycles(k: nat, cfg: HwConfig): seq<Event> {
    if k == 0 then [] else BreathCycles(k - 1, cfg) + BreathEvents(cfg)
  }

  /** The duty levels a trace commits, in order. */
  function DutyLevels(t: seq<Event>): seq<nat> {
    if t == [] then []
    else
      var e := t[|t| - 1];
      DutyLevels(t[..|t| - 1]) + (if e.SetDuty? || e.Fade? || e.ChannelConfig? then [e.level] else [])
  }

  /** The time a trace spends in delays. */
  function TotalDelay(t: seq<Event>): nat {
    if t == [] then 0
    else TotalDelay(t[..|t| - 1]) + (if t[|t| - 1].Delay? then t[|t| - 1].ms else 0)
  }

  // ---------------------------------------------------------------------------
  // Blink counts

  /** How many times a trace sets the duty to `level`. */
  function Writes(t: seq<Event>, level: nat): nat {
    if t == [] then 0
    else Writes(t[..|t| - 1], level) + (if t[|t| - 1] == SetDuty(level) then 1 else 0)
  }

  lemma {:induction false} WritesAppend(a: seq<Event>, b: seq<Event>, level: nat)
    ensures Writes(a + b, level) == Writes(a, level) + Writes(b, level)
  {
    if b == [] {
      assert a + b == a;
    } else {
      var n := |b| - 1;
      assert (a + b)[..|a + b| - 1] == a + b[..n];
      assert (a + b)[|a + b| - 1] == b[n];
      WritesAppend(a, b[..n], level);
    }
  }

  /** One blink sets the duty once to each of its two levels. */
  lemma BlinkPairWrites(cfg: HwConfig)
    requires cfg.onDuty != cfg.offDuty
    ensures Writes(BlinkPair(cfg), cfg.onDuty) == 1
    ensures Writes(BlinkPair(cfg), cfg.offDuty) == 1
  {
    var p := BlinkPair(cfg);
    assert p == [] + [p[0]] + [p[1]] + [p[2]] + [p[3]];
    WritesSnoc([], p[0], cfg.onDuty);
    WritesSnoc([] + [p[0]], p[1], cfg.onDuty);
    WritesSnoc([] + [p[0]] + [p[1]], p[2], cfg.onDuty);
    WritesSnoc([] + [p[0]] + [p[1]] + [p[2]], p[3], cfg.onDuty);
    WritesSnoc([], p[0], cfg.offDuty);
    WritesSnoc([] + [p[0]], p[1], cfg.offDuty);
    WritesSnoc([] + [p[0]] + [p[1]], p[2], cfg.offDuty);
    WritesSnoc([] + [p[0]] + [p[1]] + [p[2]], p[3], cfg.offDuty);
  }

  lemma WritesSnoc(t: seq<Event>, e: Event, level: nat)
    ensures Writes(t + [e], level) == Writes(t, level) + (if e == SetDuty(level) then 1 else 0)
  {
    assert (t + [e])[..|t|] == t;
  }

  /** n blinks write the "on" level exactly n times and the "off" level exactly n times. */
  lemma {:induction false} BlinksCount(n: nat, cfg: HwConfig)
    requires cfg.onDuty != cfg.offDuty
    ensures Writes(Blinks(n, cfg), cfg.onDuty) == n
    ensures Writes(Blinks(n, cfg), cfg.offDuty) == n
  {
    if n > 0 {
      BlinksCount(n - 1, cfg);
      BlinkPairWrites(cfg);
      WritesAppend(Blinks(n - 1, cfg), BlinkPair(cfg), cfg.onDuty);
      WritesAppend(Blinks(n - 1, cfg), BlinkPair(cfg), cfg.offDuty);
    }
  }

  /** n blinks last n * (on time + off time). */
  lemma {:induction false} BlinksDuration(n: nat, cfg: HwConfig)
    ensures TotalDelay(Blinks(n, cfg)) == n * (FlashOnMs + FlashOffMs)
  {
    if n > 0 {
      BlinksDuration(n - 1, cfg);
      TotalDelayAppend(Blinks(n - 1, cfg), BlinkPair(cfg));
      var p := BlinkPair(cfg);
      assert p == [p[0]] + [p[1]] + [p[2]] + [p[3]];
      TotalDelayAppend([p[0]] + [p[1]] + [p[2]], [p[3]]);
      TotalDelayAppend([p[0]] + [p[1]], [p[2]]);
      TotalDelayAppend([p[0]], [p[1]]);
      TotalDelaySingle(p[0]);
      TotalDelaySingle(p[1]);
      TotalDelaySingle(p[2]);
      TotalDelaySingle(p[3]);
    }
  }

  lemma TotalDelaySingle(e: Event)
    ensures TotalDelay([e]) == if e.Delay? then e.ms else 0
  {
    assert [e][..0] == [];
  }

  lemma {:induction false} TotalDelayAppend(a: seq<Event>, b: seq<Event>)
    ensures TotalDelay(a + b) == TotalDelay(a) + TotalDelay(b)
  {
    if b == [] {
      assert a + b == a;
    } else {
      var n := |b| - 1;
      assert (a + b)[..|a + b| - 1] == a + b[..n];
      assert (a + b)[|a + b| - 1] == b[n];
      TotalDelayAppend(a, b[..n]);
    }
  }

  /** The blink loop writes the "on" level Σ (dev + 1) times over the active slots. */
  lemma {:induction false} BlinkPlanOnWrites(recheck: seq<bool>, n: nat, cfg: HwConfig)
    requires n <= |recheck|
    requires cfg.onDuty != cfg.offDuty
    ensures Writes(BlinkPlan(recheck, n, cfg), cfg.onDuty) == BlinkWeight(recheck, n)
  {
    if n > 0 {
      BlinkPlanOnWrites(recheck, n - 1, cfg);
      var prev := BlinkPlan(recheck, n - 1, cfg);
      if recheck[n - 1] {
        BlinksCount(n, cfg);
        WritesAppend(prev, SlotGroup(n - 1, cfg), cfg.onDuty);
        WritesAppend(Blinks(n, cfg), [Delay(PauseDevMs)], cfg.onDuty);
        assert [Delay(PauseDevMs)][..0] == [];
      } else {
        assert BlinkPlan(recheck, n, cfg) == prev;
      }
    }
  }

  /** ActiveSlots lists exactly the active indices below n, each once, in ascending order. */
  lemma {:induction false} ActiveSlotsAscending(recheck: seq<bool>, n: nat)
    requires n <= |recheck|
    ensures forall d :: d in ActiveSlots(recheck, n) <==> 0 <= d < n && recheck[d]
    ensures forall i, j :: 0 <= i < j < |ActiveSlots(recheck, n)| ==>
      ActiveSlots(recheck, n)[i] < ActiveSlots(recheck, n)[j]
  {
    if n > 0 {
      ActiveSlotsAscending(recheck, n - 1);
      var prev := ActiveSlots(recheck, n - 1);
      assert forall i :: 0 <= i < |prev| ==> prev[i] in prev;
    }
  }

  /** The blink loop is exactly the groups of the active slots, in ascending slot order. */
  lemma {:induction false} BlinkPlanIsGroups(recheck: seq<bool>, n: nat, cfg: HwConfig)
    requires n <= |recheck|
    ensures BlinkPlan(recheck, n, cfg) == Groups(ActiveSlots(recheck, n), cfg)
  {
    if n > 0 {
      BlinkPlanIsGroups(recheck, n - 1, cfg);
      var s := ActiveSlots(recheck, n);
      if recheck[n - 1] {
        assert s[..|s| - 1] == ActiveSlots(recheck, n - 1);
      } else {
        assert s == ActiveSlots(recheck, n - 1);
      }
    }
  }

  /** Every write of the blink loop is a duty write or a delay; it never parks or resumes the idle task. */
  lemma {:induction false} BlinkPlanOnlyBlinks(recheck: seq<bool>, n: nat, cfg: HwConfig)
    requires n <= |recheck|
    ensures forall e :: e in BlinkPlan(recheck, n, cfg) ==>
      e == SetDuty(cfg.onDuty) || e == SetDuty(cfg.offDuty) || e.Delay?
  {
    if n > 0 {
      BlinkPlanOnlyBlinks(recheck, n - 1, cfg);
      if recheck[n - 1] {
        BlinksOnlyBlinks(n, cfg);
      }
    }
  }

  lemma {:induction false} BlinksOnlyBlinks(n: nat, cfg: HwConfig)
    ensures forall e :: e in Blinks(n, cfg) ==>
      e == SetDuty(cfg.onDuty) || e == SetDuty(cfg.offDuty) || e.Delay?
  {
    if n > 0 {
      BlinksOnlyBlinks(n - 1, cfg);
    }
  }

  /** One blink leaves the channel off and changes nothing else. */
  lemma BlinkPairView(v: View, cfg: HwConfig)
    ensures Run(v, BlinkPair(cfg)) == v.(duty := Some(cfg.offDuty))
  {
    var p := BlinkPair(cfg);
    assert p == [] + [p[0]] + [p[1]] + [p[2]] + [p[3]];
    RunSnoc(v, [], p[0]);
    RunSnoc(v, [] + [p[0]], p[1]);
    RunSnoc(v, [] + [p[0]] + [p[1]], p[2]);
    RunSnoc(v, [] + [p[0]] + [p[1]] + [p[2]], p[3]);
  }

  /** Blinking leaves the channel off, if it blinks at all, and changes nothing else. */
  lemma {:induction false} BlinksView(v: View, n: nat, cfg: HwConfig)
    ensures Run(v, Blinks(n, cfg)) == if n == 0 then v else v.(duty := Some(cfg.offDuty))
  {
    if n > 0 {
      BlinksView(v, n - 1, cfg);
      RunAppend(v, Blinks(n - 1, cfg), BlinkPair(cfg));
      BlinkPairView(Run(v, Blinks(n - 1, cfg)), cfg);
    }
  }

  /** A slot's group leaves the channel off and changes nothing else. */
  lemma SlotGroupView(v: View, dev: nat, cfg: HwConfig)
    ensures Run(v, SlotGroup(dev, cfg)) == v.(duty := Some(cfg.offDuty))
  {
    RunAppend(v, Blinks(dev + 1, cfg), [Delay(PauseDevMs)]);
    BlinksView(v, dev + 1, cfg);
    RunSnoc(v.(duty := Some(cfg.offDuty)), [], Delay(PauseDevMs));
    assert [] + [Delay(PauseDevMs)] == [Delay(PauseDevMs)];
  }

  /** The blink loop changes nothing but the duty, and leaves it off exactly when some
      slot blinked; it never parks or resumes the idle task. */
  lemma {:induction false} BlinkPlanView(v: View, recheck: seq<bool>, n: nat, cfg: HwConfig)
    requires n <= |recheck|
    ensures Run(v, BlinkPlan(recheck, n, cfg))
         == if BlinkWeight(recheck, n) == 0 then v else v.(duty := Some(cfg.offDuty))
  {
    if n > 0 {
      BlinkPlanView(v, recheck, n - 1, cfg);
      var prev := BlinkPlan(recheck, n - 1, cfg);
      var off := v.(duty := Some(cfg.offDuty));
      if recheck[n - 1] {
        assert BlinkPlan(recheck, n, cfg) == prev + SlotGroup(n - 1, cfg);
        assert BlinkWeight(recheck, n) == BlinkWeight(recheck, n - 1) + n;
        var w := Run(v, prev);
        assert w.(duty := Some(cfg.offDuty)) == off;
        RunAppend(v, prev, SlotGroup(n - 1, cfg));
        SlotGroupView(w, n - 1, cfg);
      } else {
        assert BlinkPlan(recheck, n, cfg) == prev + [] == prev;
        assert BlinkWeight(recheck, n) == BlinkWeight(recheck, n - 1);
      }
    }
  }

  // ---------------------------------------------------------------------------
  // One scan iteration

  /** A scan that finds no active slot only waits. */
  lemma QuietScanOnlyWaits(scan: seq<bool>, recheck: seq<bool>, cfg: HwConfig)
    requires forall i :: 0 <= i < |scan| ==> !scan[i]
    ensures NotifyEvents(scan, recheck, cfg) == [Delay(IdleScanDelayMs)]
  {
  }

  /** A scan that finds an active slot first parks the idle task, forces the channel off
      and settles; it ends with the long pause. */
  lemma ActiveScanShape(scan: seq<bool>, recheck: seq<bool>, cfg: HwConfig)
    requires SomeActive(scan)
    ensures NotifyEvents(scan, recheck, cfg)[..3] == [SuspendIdle, SetDuty(cfg.offDuty), Delay(SettleDelayMs)]
    ensures NotifyEvents(scan, recheck, cfg)[|NotifyEvents(scan, recheck, cfg)| - 1] == Delay(CycleDelayMs)
  {
  }

  /** The prologue parks the idle task and leaves the channel off; it never writes "on". */
  lemma PrologueEffect(v: View, cfg: HwConfig)
    ensures Run(v, Prologue(cfg)) == v.(duty := Some(cfg.offDuty), parked := Some(true))
    ensures cfg.onDuty != cfg.offDuty ==> Writes(Prologue(cfg), cfg.onDuty) == 0
  {
    var h := Prologue(cfg);
    assert h == [] + [h[0]] + [h[1]] + [h[2]];
    RunSnoc(v, [], h[0]);
    RunSnoc(v, [] + [h[0]], h[1]);
    RunSnoc(v, [] + [h[0]] + [h[1]], h[2]);
    WritesSnoc([], h[0], cfg.onDuty);
    WritesSnoc([] + [h[0]], h[1], cfg.onDuty);
    WritesSnoc([] + [h[0]] + [h[1]], h[2], cfg.onDuty);
  }

  /** A delay moves no state and writes no duty. */
  lemma DelayEffect(v: View, ms: nat, level: nat)
    ensures Run(v, [Delay(ms)]) == v
    ensures Writes([Delay(ms)], level) == 0
  {
    RunSnoc(v, [], Delay(ms));
    WritesSnoc([], Delay(ms), level);
    assert [] + [Delay(ms)] == [Delay(ms)];
  }

  /** A scan that finds an active slot writes the "on" level Σ (dev + 1) times over the
      slots still active on the recheck. */
  lemma {:induction false} ActiveScanOnWrites(scan: seq<bool>, recheck: seq<bool>, cfg: HwConfig)
    requires SomeActive(scan)
    requires cfg.onDuty != cfg.offDuty
    ensures Writes(NotifyEvents(scan, recheck, cfg), cfg.onDuty) == BlinkWeight(recheck, |recheck|)
  {
    var plan := BlinkPlan(recheck, |recheck|, cfg);
    assert NotifyEvents(scan, recheck, cfg) == Prologue(cfg) + plan + [Delay(CycleDelayMs)];
    BlinkPlanOnWrites(recheck, |recheck|, cfg);
    PrologueEffect(PowerOn, cfg);
    DelayEffect(PowerOn, CycleDelayMs, cfg.onDuty);
    WritesAppend(Prologue(cfg) + plan, [Delay(CycleDelayMs)], cfg.onDuty);
    WritesAppend(Prologue(cfg), plan, cfg.onDuty);
  }

  /** A scan with no active slot changes nothing; a scan with one leaves the channel at
      the "off" level and the idle task parked, and changes nothing else. */
  lemma {:induction false} NotifyView(v: View, scan: seq<bool>, recheck: seq<bool>, cfg: HwConfig)
    ensures Run(v, NotifyEvents(scan, recheck, cfg))
         == if SomeActive(scan) then v.(duty := Some(cfg.offDuty), parked := Some(true)) else v
  {
    if !SomeActive(scan) {
      DelayEffect(v, IdleScanDelayMs, 0);
    } else {
      var plan := BlinkPlan(recheck, |recheck|, cfg);
      assert NotifyEvents(scan, recheck, cfg) == Prologue(cfg) + plan + [Delay(CycleDelayMs)];
      var w := v.(duty := Some(cfg.offDuty), parked := Some(true));
      PrologueEffect(v, cfg);
      BlinkPlanView(w, recheck, |recheck|, cfg);
      assert w.(duty := Some(cfg.offDuty)) == w;
      DelayEffect(w, CycleDelayMs, 0);
      RunAppend(v, Prologue(cfg), plan);
      RunAppend(v, Prologue(cfg) + plan, [Delay(CycleDelayMs)]);
    }
  }

  /** With BT_MAX_DEV = 7 and only slot 1 active, the blink loop is one group of two blinks. */
  lemma {:induction false} OnlySlotOneBlinksTwice(cfg: HwConfig)
    ensures BlinkPlan([false, true, false, false, false, false, false], 7, cfg)
         == BlinkPair(cfg) + BlinkPair(cfg) + [Delay(PauseDevMs)]
  {
    var r := [false, true, false, false, false, false, false];
    BlinkPlanIsGroups(r, 7, cfg);
    assert ActiveSlots(r, 7) == [1];
    assert [1][..0] == [];
    assert Groups([1], cfg) == SlotGroup(1, cfg);
    assert Blinks(1, cfg) == BlinkPair(cfg);
    assert Blinks(2, cfg) == BlinkPair(cfg) + BlinkPair(cfg);
  }

  // ---------------------------------------------------------------------------
  // Breathing

  lemma DutyLevelsSingle(e: Event)
    ensures DutyLevels([e]) == if e.SetDuty? || e.Fade? || e.ChannelConfig? then [e.level] else []
  {
    assert [e][..0] == [];
  }

  lemma {:induction false} DutyLevelsAppend(a: seq<Event>, b: seq<Event>)
    ensures DutyLevels(a + b) == DutyLevels(a) + DutyLevels(b)
  {
    if b == [] {
      assert a + b == a;
    } else {
      var n := |b| - 1;
      assert (a + b)[..|a + b| - 1] == a + b[..n];
      assert (a + b)[|a + b| - 1] == b[n];
      DutyLevelsAppend(a, b[..n]);
    }
  }

  /** k breathing iterations fade to the maximum and the minimum alternately, 2k times,
      and write no duty other than by those fades. */
  lemma {:induction false} BreathAlternates(k: nat, cfg: HwConfig)
    ensures |DutyLevels(BreathCycles(k, cfg))| == 2 * k
    ensures forall i :: 0 <= i < 2 * k ==>
      DutyLevels(BreathCycles(k, cfg))[i] == if i % 2 == 0 then cfg.dutyMax else cfg.dutyMin
    ensures forall e :: e in BreathCycles(k, cfg) ==> e.Fade? || e.Delay?
  {
    if k > 0 {
      BreathAlternates(k - 1, cfg);
      BreathLevels(cfg);
      DutyLevelsAppend(BreathCycles(k - 1, cfg), BreathEvents(cfg));
      var prev := DutyLevels(BreathCycles(k - 1, cfg));
      var cur := DutyLevels(BreathCycles(k, cfg));
      assert cur == prev + [cfg.dutyMax, cfg.dutyMin];
      forall i | 0 <= i < 2 * k
        ensures cur[i] == if i % 2 == 0 then cfg.dutyMax else cfg.dutyMin
      {
        if i < 2 * k - 2 {
          assert cur[i] == prev[i];
        } else if i == 2 * k - 2 {
          assert i % 2 == 0;
        } else {
          assert i % 2 == 1;
        }
      }
    }
  }

  /** One breathing iteration fades to the maximum, then to the minimum. */
  lemma BreathLevels(cfg: HwConfig)
    ensures DutyLevels(BreathEvents(cfg)) == [cfg.dutyMax, cfg.dutyMin]
  {
    var b := BreathEvents(cfg);
    assert b == [b[0]] + [b[1]] + [b[2]] + [b[3]];
    DutyLevelsAppend([b[0]] + [b[1]] + [b[2]], [b[3]]);
    DutyLevelsAppend([b[0]] + [b[1]], [b[2]]);
    DutyLevelsAppend([b[0]], [b[1]]);
    DutyLevelsSingle(b[0]);
    DutyLevelsSingle(b[1]);
    DutyLevelsSingle(b[2]);
    DutyLevelsSingle(b[3]);
  }

  /** One breathing iteration leaves the channel at the minimum and changes nothing else. */
  lemma BreathView(v: View, cfg: HwConfig)
    ensures Run(v, BreathEvents(cfg)) == v.(duty := Some(cfg.dutyMin))
  {
    var b := BreathEvents(cfg);
    assert b == [] + [b[0]] + [b[1]] + [b[2]] + [b[3]];
    RunSnoc(v, [], b[0]);
    RunSnoc(v, [] + [b[0]], b[1]);
    RunSnoc(v, [] + [b[0]] + [b[1]], b[2]);
    RunSnoc(v, [] + [b[0]] + [b[1]] + [b[2]], b[3]);
  }
}
