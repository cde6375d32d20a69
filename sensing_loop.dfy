/**
 * The sensing loop of one wake episode (logic() in src/main.cpp), as a pure
 * specification. The hardware reads of one loop iteration (trigger pin,
 * humidity, temperature) become one Sample of an input script; the writes to
 * the output pin become a trace of PinWrite values.
 */
module SensingLoop {
  import opened Wrappers

  const OUTPUT_PIN: nat := 27

  /** Lowest temperature (degrees Celsius) at which no cold-start pulse is given. */
  const COLD_LIMIT: real := 20.0
  /** Sleeps shorter than this many seconds count as a cold start. */
  const SHORT_SLEEP: int := 300
  /** Sleeps longer than this many seconds (six hours) count as a cold start. */
  const LONG_SLEEP: int := 21600

  datatype Level = Low | High

  /** One digital write. */
  datatype PinWrite = PinWrite(pin: nat, level: Level)

  /**
   * What one pass through the loop observes: the trigger pin level, then the
   * two sensor readings, None standing for a failed (NaN) reading. The
   * readings are not taken when the trigger reads High.
   */
  datatype Sample = Sample(trigger: Level, humidity: Option<real>, temperature: Option<real>)

  /** How the loop ended. */
  datatype Exit =
    | TriggerReleased   // the trigger pin read High: the normal way out
    | SensorFailure     // a reading was NaN: logic() returned early
    | ScriptExhausted   // the script ended while the trigger still read Low

  /** What the loop did: how it ended, how many bodies ran, the latch, the writes. */
  datatype LoopOutcome = LoopOutcome(exit: Exit, iterations: nat, activated: bool, writes: seq<PinWrite>)

  /** The relay pulse: drive the output pin Low, then High again. */
  function Pulse(): seq<PinWrite> {
    [PinWrite(OUTPUT_PIN, Low), PinWrite(OUTPUT_PIN, High)]
  }

  /** Whether the elapsed sleep is short or long enough to call for a cold start. */
  predicate InColdStartWindow(elapsed: int) {
    elapsed < SHORT_SLEEP || elapsed > LONG_SLEEP
  }

  /** The activation rule of one iteration. */
  predicate ShouldActivate(temperature: real, activated: bool, elapsed: int) {
    temperature < COLD_LIMIT && !activated && InColdStartWindow(elapsed)
  }

  /** The body runs on this sample and gets two valid readings. */
  predicate Sensed(s: Sample) {
    s.trigger == Low && s.humidity.Some? && s.temperature.Some?
  }

  /**
   * The script holds a sample that stops the loop (trigger High or a failed
   * reading), so logic() returns within it.
   */
  predicate LoopEnds(script: seq<Sample>) {
    exists k :: 0 <= k < |script| && !Sensed(script[k])
  }

  /**
   * The loop run on a script from position `from` on, with the elapsed sleep
   * fixed for the whole episode and `activated` the latch on entry. A whole
   * episode's loop is Run(script, 0, elapsed, false); `iterations` counts the
   * bodies run from `from` on.
   */
  function Run(script: seq<Sample>, from: nat, elapsed: int, activated: bool): (r: LoopOutcome)
    requires from <= |script|
    ensures from + r.iterations <= |script|
    ensures r.exit == ScriptExhausted ==> from + r.iterations == |script|
    // the latch never resets
    ensures activated ==> r.activated
    decreases |script| - from
  {
    if from == |script| then
      LoopOutcome(ScriptExhausted, 0, activated, [])
    else if script[from].trigger == High then
      LoopOutcome(TriggerReleased, 0, activated, [])
    else if script[from].humidity.None? || script[from].temperature.None? then
      LoopOutcome(SensorFailure, 1, activated, [])
    else
      var fire := ShouldActivate(script[from].temperature.value, activated, elapsed);
      var rest := Run(script, from + 1, elapsed, activated || fire);
      LoopOutcome(rest.exit, rest.iterations + 1, rest.activated,
                  (if fire then Pulse() else []) + rest.writes)
  }

  /**
   * The writes of a run: one pulse (output Low, then High) exactly when the
   * run sets a latch that was clear, and nothing otherwise. So a run pulses
   * at most once, and never once the latch is set.
   */
  lemma {:induction false} RunWrites(script: seq<Sample>, from: nat, elapsed: int, activated: bool)
    requires from <= |script|
    ensures var r := Run(script, from, elapsed, activated);
      r.writes == if r.activated && !activated then Pulse() else []
    decreases |script| - from
  {
    if from < |script| && Sensed(script[from]) {
      RunWrites(script, from + 1, elapsed,
                activated || ShouldActivate(script[from].temperature.value, activated, elapsed));
    }
  }

  /**
   * The loop keeps going only while the trigger reads Low and the readings
   * are valid: every body that ran read a Low sample, and every body but the
   * last got two valid readings.
   */
  lemma {:induction false} BodiesReadLowSamples(script: seq<Sample>, from: nat, elapsed: int, activated: bool)
    requires from <= |script|
    ensures var r := Run(script, from, elapsed, activated);
      && (forall j :: from <= j < from + r.iterations ==> script[j].trigger == Low)
      && (forall j :: from <= j < from + r.iterations - 1 ==> Sensed(script[j]))
    decreases |script| - from
  {
    if from < |script| && Sensed(script[from]) {
      BodiesReadLowSamples(script, from + 1, elapsed,
                           activated || ShouldActivate(script[from].temperature.value, activated, elapsed));
    }
  }

  /** Each way out of the loop and the sample that caused it. */
  lemma {:induction false} LoopExitConditions(script: seq<Sample>, from: nat, elapsed: int, activated: bool)
    requires from <= |script|
    ensures var r := Run(script, from, elapsed, activated);
      && (r.exit == TriggerReleased ==> from + r.iterations < |script| && script[from + r.iterations].trigger == High)
      && (r.exit == SensorFailure ==> 0 < r.iterations && !Sensed(script[from + r.iterations - 1]))
      && (r.exit != SensorFailure && 0 < r.iterations ==> Sensed(script[from + r.iterations - 1]))
    decreases |script| - from
  {
    if from < |script| && Sensed(script[from]) {
      LoopExitConditions(script, from + 1, elapsed,
                         activated || ShouldActivate(script[from].temperature.value, activated, elapsed));
    }
  }

  /** The body reaches sample k from `from` with every reading so far valid, and sample k is cold. */
  ghost predicate SensedCold(script: seq<Sample>, from: nat, k: int) {
    from <= k < |script| &&
    (forall j :: from <= j <= k ==> Sensed(script[j])) &&
    script[k].temperature.value < COLD_LIMIT
  }

  /**
   * A pulse comes from a reached, valid, cold sample, with the latch clear
   * and the elapsed sleep in the window; the lemma names that sample.
   */
  lemma {:induction false} PulseHasColdSample(script: seq<Sample>, from: nat, elapsed: int, activated: bool)
    returns (k: nat)
    requires from <= |script|
    requires Run(script, from, elapsed, activated).writes == Pulse()
    ensures !activated && InColdStartWindow(elapsed) && SensedCold(script, from, k)
    decreases |script| - from
  {
    assert from < |script| && Sensed(script[from]);
    var fire := ShouldActivate(script[from].temperature.value, activated, elapsed);
    if fire {
      k := from;
    } else {
      k := PulseHasColdSample(script, from + 1, elapsed, activated);
      assert forall j :: from < j <= k ==> Sensed(script[j]);
    }
  }

  /** With the latch clear and the elapsed sleep in the window, a reached, valid, cold sample fires the relay. */
  lemma {:induction false} ColdSampleFires(script: seq<Sample>, from: nat, k: nat, elapsed: int)
    requires InColdStartWindow(elapsed) && SensedCold(script, from, k)
    ensures Run(script, from, elapsed, false).writes == Pulse()
    decreases k - from
  {
    assert Sensed(script[from]);
    if script[from].temperature.value >= COLD_LIMIT {
      assert SensedCold(script, from + 1, k);
      ColdSampleFires(script, from + 1, k, elapsed);
    } else {
      RunWrites(script, from + 1, elapsed, true);
    }
  }

  /**
   * The cold-start rule over a whole run: the relay fires exactly when it
   * had not fired yet, the elapsed sleep is in the window and the body reaches
   * a valid cold sample.
   */
  lemma ActivationIff(script: seq<Sample>, from: nat, elapsed: int, activated: bool)
    requires from <= |script|
    ensures Run(script, from, elapsed, activated).writes == Pulse() <==>
      !activated && InColdStartWindow(elapsed) && exists k :: SensedCold(script, from, k)
  {
    if Run(script, from, elapsed, activated).writes == Pulse() {
      var k := PulseHasColdSample(script, from, elapsed, activated);
    }
    if !activated && InColdStartWindow(elapsed) && exists k :: SensedCold(script, from, k) {
      var k :| SensedCold(script, from, k);
      ColdSampleFires(script, from, k, elapsed);
    }
  }

  /**
   * A sample that stops the loop (trigger High or a failed reading) ends it:
   * nothing after it is read, and it adds no write.
   */
  lemma {:induction false} NothingReadAfterExit(script: seq<Sample>, from: nat, k: nat, elapsed: int, activated: bool)
    requires from <= k < |script|
    requires forall j :: from <= j < k ==> Sensed(script[j])
    requires !Sensed(script[k])
    ensures Run(script, from, elapsed, activated) == Run(script[..k + 1], from, elapsed, activated)
    ensures Run(script, from, elapsed, activated).exit == if script[k].trigger == High then TriggerReleased else SensorFailure
    ensures Run(script, from, elapsed, activated).iterations == if script[k].trigger == High then k - from else k - from + 1
    decreases k - from
  {
    var cut := script[..k + 1];
    assert cut[from] == script[from];
    if from < k {
      assert Sensed(script[from]);
      var fire := ShouldActivate(script[from].temperature.value, activated, elapsed);
      NothingReadAfterExit(script, from + 1, k, elapsed, activated || fire);
    }
  }

  /** A script with a stopping sample at or after `from` never runs out: the loop returns within it. */
  lemma {:induction false} StoppingSampleEndsLoop(script: seq<Sample>, from: nat, k: nat, elapsed: int, activated: bool)
    requires from <= k < |script| && !Sensed(script[k])
    ensures Run(script, from, elapsed, activated).exit != ScriptExhausted
    decreases k - from
  {
    if Sensed(script[from]) {
      StoppingSampleEndsLoop(script, from + 1, k, elapsed,
                             activated || ShouldActivate(script[from].temperature.value, activated, elapsed));
    }
  }

  /** The window's bounds are strict: 299 s and 21601 s call for a cold start, 300 s and 21600 s do not. */
  lemma ColdStartWindowEdges()
    ensures InColdStartWindow(SHORT_SLEEP - 1) && !InColdStartWindow(SHORT_SLEEP)
    ensures !InColdStartWindow(LONG_SLEEP) && InColdStartWindow(LONG_SLEEP + 1)
  {
  }

  /** When the trigger reads High at entry the body never runs: no write, the latch stays as it was. */
  lemma TriggerHighAtEntry(script: seq<Sample>, elapsed: int, activated: bool)
    requires script != [] && script[0].trigger == High
    ensures Run(script, 0, elapsed, activated) == LoopOutcome(TriggerReleased, 0, activated, [])
  {
  }

  /** A failed reading on the first pass returns at once, before the activation rule. */
  lemma FailedReadingWritesNothing(script: seq<Sample>, elapsed: int, activated: bool)
    requires script != [] && script[0].trigger == Low
    requires script[0].humidity.None? || script[0].temperature.None?
    ensures Run(script, 0, elapsed, activated) == LoopOutcome(SensorFailure, 1, activated, [])
  {
  }

  /** Outside the elapsed-sleep window no sample, however cold, fires the relay. */
  lemma {:induction false} NoPulseOutsideWindow(script: seq<Sample>, from: nat, elapsed: int, activated: bool)
    requires from <= |script|
    requires !InColdStartWindow(elapsed)
    ensures Run(script, from, elapsed, activated).writes == []
    ensures Run(script, from, elapsed, activated).activated == activated
    decreases |script| - from
  {
    if from < |script| && Sensed(script[from]) {
      NoPulseOutsideWindow(script, from + 1, elapsed, activated);
    }
  }

  function Reading(trigger: Level, temperature: real): Sample {
    Sample(trigger, Some(50.0), Some(temperature))
  }

  /**
   * Four samples at 25, 22, 18 and 17 degrees after a 100-second sleep, then
   * the trigger released: the pulse fires exactly once over the episode.
   */
  lemma ScenarioShortSleep()
    ensures Run([Reading(Low, 25.0), Reading(Low, 22.0), Reading(Low, 18.0),
                 Reading(Low, 17.0), Reading(High, 17.0)], 0, 100, false)
            == LoopOutcome(TriggerReleased, 4, true, Pulse())
  {
    var script := [Reading(Low, 25.0), Reading(Low, 22.0), Reading(Low, 18.0),
                   Reading(Low, 17.0), Reading(High, 17.0)];
    assert script[2].temperature.value < COLD_LIMIT;
    assert !ShouldActivate(script[0].temperature.value, false, 100);
    assert !ShouldActivate(script[1].temperature.value, false, 100);
    assert Run(script, 4, 100, true) == LoopOutcome(TriggerReleased, 0, true, []);
    assert Run(script, 3, 100, true) == LoopOutcome(TriggerReleased, 1, true, []);
    assert Run(script, 2, 100, false) == LoopOutcome(TriggerReleased, 2, true, Pulse());
    assert Run(script, 1, 100, false) == LoopOutcome(TriggerReleased, 3, true, Pulse());
    assert Run(script, 0, 100, false) == LoopOutcome(TriggerReleased, 4, true, Pulse());
  }

  /** The same episode cut off after the 25- and 22-degree samples has not fired. */
  lemma ScenarioWarmSamplesOnly()
    ensures Run([Reading(Low, 25.0), Reading(Low, 22.0), Reading(High, 22.0)], 0, 100, false)
            == LoopOutcome(TriggerReleased, 2, false, [])
  {
    var script := [Reading(Low, 25.0), Reading(Low, 22.0), Reading(High, 22.0)];
    assert Run(script, 1, 100, false) == LoopOutcome(TriggerReleased, 1, false, []);
  }

  /** At 19.5 degrees a 600-second sleep does not call for a cold start, a 200-second sleep does. */
  lemma ScenarioWindow()
    ensures Run([Reading(Low, 19.5)], 0, 600, false).writes == []
    ensures Run([Reading(Low, 19.5)], 0, 200, false).writes == Pulse()
  {
    assert Run([Reading(Low, 19.5)], 1, 600, false).writes == [];
  }
}
