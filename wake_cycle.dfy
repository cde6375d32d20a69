/**
 * One wake episode of the device (setup() and logic() in src/main.cpp) and
 * the state it hands to the next episode through RTC memory.
 *
 * Deep sleep ends an episode; the next wake re-runs setup() with the
 * RTC_DATA_ATTR fields preserved and every ordinary global re-initialised.
 * The clock reads time(nullptr) and the hardware reads of the loop are
 * parameters: a clock value for the wake stamp, one for the sleep stamp, and
 * an input script of samples.
 */
module WakeCycle {
  import opened Wrappers
  import opened SensingLoop
  import WakeupReason

  /** The fields kept in RTC memory across deep sleep. */
  datatype Retained = Retained(bootCount: int, sleepEnterTime: int, wakeupTime: int)

  /** RTC memory after a full power loss: every field zero. */
  const PowerOnRetained: Retained := Retained(0, 0, 0)

  /** What one wake brings: its cause, the two clock reads and the loop's input script. */
  datatype Wake = Wake(cause: WakeupReason.WakeupCause, wakeClock: int, sleepClock: int, script: seq<Sample>)

  /** The retained fields after an episode woken at `wakeClock` that goes to sleep at `sleepClock`. */
  function NextRetained(r: Retained, wakeClock: int, sleepClock: int): Retained {
    Retained(r.bootCount + 1, sleepClock, wakeClock)
  }

  /** The elapsed sleep the activation rule sees: the new wake stamp minus the stored sleep stamp. */
  function ElapsedSleep(r: Retained, wakeClock: int): int {
    wakeClock - r.sleepEnterTime
  }

  /** The sleep-duration log line, printed only when a sleep stamp was recorded. */
  function SleepLog(r: Retained, wakeClock: int): Option<int> {
    if r.sleepEnterTime > 0 then Some(wakeClock - r.sleepEnterTime) else None
  }

  /** The retained fields after a series of wakes. */
  function AfterEpisodes(r: Retained, wakes: seq<Wake>): Retained
    decreases |wakes|
  {
    if wakes == [] then r
    else AfterEpisodes(NextRetained(r, wakes[0].wakeClock, wakes[0].sleepClock), wakes[1..])
  }

  /** One more wake extends the series by one retained-state update. */
  lemma {:induction false} AfterEpisodesSnoc(r: Retained, wakes: seq<Wake>, w: Wake)
    ensures AfterEpisodes(r, wakes + [w]) == NextRetained(AfterEpisodes(r, wakes), w.wakeClock, w.sleepClock)
    decreases |wakes|
  {
    if wakes == [] {
      assert [w][1..] == [];
    } else {
      AfterEpisodesSnoc(NextRetained(r, wakes[0].wakeClock, wakes[0].sleepClock), wakes[1..], w);
      assert (wakes + [w])[1..] == wakes[1..] + [w];
    }
  }

  /** The boot counter counts wakes: one per episode, whatever woke the device. */
  lemma {:induction false} BootCountCountsWakes(r: Retained, wakes: seq<Wake>)
    ensures AfterEpisodes(r, wakes).bootCount == r.bootCount + |wakes|
    decreases |wakes|
  {
    if wakes != [] {
      BootCountCountsWakes(NextRetained(r, wakes[0].wakeClock, wakes[0].sleepClock), wakes[1..]);
    }
  }

  /** After at least one episode the stamps are those of the last one. */
  lemma {:induction false} StampsOfLastEpisode(r: Retained, wakes: seq<Wake>)
    requires wakes != []
    ensures AfterEpisodes(r, wakes).sleepEnterTime == wakes[|wakes| - 1].sleepClock
    ensures AfterEpisodes(r, wakes).wakeupTime == wakes[|wakes| - 1].wakeClock
    decreases |wakes|
  {
    if |wakes| > 1 {
      StampsOfLastEpisode(NextRetained(r, wakes[0].wakeClock, wakes[0].sleepClock), wakes[1..]);
    }
  }

  /**
   * The elapsed sleep that episode k after a power-on sees: its wake clock
   * minus the sleep clock of episode k - 1, or minus zero for the first
   * episode. The sleep log is printed only from the second episode on, and
   * only when the previous sleep stamp is positive.
   */
  lemma ElapsedSeenByEpisode(wakes: seq<Wake>, k: nat)
    requires k < |wakes|
    ensures var before := AfterEpisodes(PowerOnRetained, wakes[..k]);
      && ElapsedSleep(before, wakes[k].wakeClock) == wakes[k].wakeClock - (if k == 0 then 0 else wakes[k - 1].sleepClock)
      && (SleepLog(before, wakes[k].wakeClock).Some? <==> k > 0 && wakes[k - 1].sleepClock > 0)
      && (SleepLog(before, wakes[k].wakeClock).Some? ==>
            SleepLog(before, wakes[k].wakeClock).value == wakes[k].wakeClock - wakes[k - 1].sleepClock)
      && before.bootCount == k
  {
    BootCountCountsWakes(PowerOnRetained, wakes[..k]);
    if k > 0 {
      StampsOfLastEpisode(PowerOnRetained, wakes[..k]);
    }
  }

  /**
   * The sleep log across one sleep: nothing on the first wake after a power
   * loss, and after an episode that stamped a positive sleep clock, the next
   * wake logs the time since that stamp.
   */
  lemma SleepLogAcrossSleep(r: Retained, wakeClock: int, sleepClock: int, nextWake: int)
    ensures SleepLog(PowerOnRetained, wakeClock) == None
    ensures SleepLog(NextRetained(r, wakeClock, sleepClock), nextWake)
            == if sleepClock > 0 then Some(nextWake - sleepClock) else None
  {
  }

  /** The loop run of wake k in a series started from retained fields r0. */
  function EpisodeRun(r0: Retained, wakes: seq<Wake>, k: nat): LoopOutcome
    requires k < |wakes|
  {
    Run(wakes[k].script, 0, ElapsedSleep(AfterEpisodes(r0, wakes[..k]), wakes[k].wakeClock), false)
  }

  /** The device: its RTC-retained fields, the RAM latch and this episode's pin writes. */
  class Device {
    var bootCount: int
    var sleepEnterTime: int
    var wakeupTime: int
    /** Ordinary RAM: re-initialised to false at every boot. */
    var hasActivated: bool
    /** The writes to the output pin during the current episode, oldest first. */
    var pinWrites: seq<PinWrite>

    function Retention(): Retained
      reads this
    {
      Retained(bootCount, sleepEnterTime, wakeupTime)
    }

    /** First power-on: RTC memory is zeroed and nothing has been written yet. */
    constructor PowerOn()
      ensures Retention() == PowerOnRetained
      ensures !hasActivated && pinWrites == []
    {
      bootCount, sleepEnterTime, wakeupTime := 0, 0, 0;
      hasActivated := false;
      pinWrites := [];
    }

    /**
     * The sensing loop. It runs while the trigger reads Low, returns at once on
     * a failed reading and pulses the output pin when the activation rule
     * holds. It leaves the RTC fields alone, so the elapsed sleep it tests is
     * the same in every iteration.
     */
    method Logic(script: seq<Sample>) returns (exit: Exit, iterations: nat)
      modifies this`hasActivated, this`pinWrites
      ensures Retention() == old(Retention())
      ensures var r := Run(script, 0, old(wakeupTime - sleepEnterTime), old(hasActivated));
        && exit == r.exit && iterations == r.iterations
        && hasActivated == r.activated
        && pinWrites == old(pinWrites) + r.writes
    {
      ghost var elapsed := wakeupTime - sleepEnterTime;
      ghost var whole := Run(script, 0, elapsed, hasActivated);
      ghost var latched, start := hasActivated, pinWrites;
      var i := 0;
      while i < |script| && script[i].trigger == Low
        invariant 0 <= i <= |script|
        invariant latched ==> hasActivated
        invariant pinWrites == start + (if hasActivated && !latched then Pulse() else [])
        invariant var rest := Run(script, i, elapsed, hasActivated);
          && rest.exit == whole.exit && i + rest.iterations == whole.iterations
          && rest.activated == whole.activated
      {
        var sample := script[i];
        if sample.humidity.None? || sample.temperature.None? {
          RunWrites(script, 0, elapsed, latched);
          return SensorFailure, i + 1;
        }
        var t := sample.temperature.value;
        if ShouldActivate(t, hasActivated, wakeupTime - sleepEnterTime) {
          pinWrites := pinWrites + [PinWrite(OUTPUT_PIN, Low)];
          pinWrites := pinWrites + [PinWrite(OUTPUT_PIN, High)];
          hasActivated := true;
        }
        i := i + 1;
      }
      exit := if i < |script| then TriggerReleased else ScriptExhausted;
      iterations := i;
      RunWrites(script, 0, elapsed, latched);
    }

    /**
     * One wake episode from boot to the call that enters deep sleep: drive
     * the output pin High, report the wake cause, count the boot, stamp the
     * wake time, log the sleep duration if a sleep stamp exists, run the
     * sensing loop and stamp the sleep time. The sleep stamp is reached only
     * once logic() returns, so the script holds a sample that stops the loop.
     */
    method Setup(cause: WakeupReason.WakeupCause, wakeClock: int, sleepClock: int, script: seq<Sample>)
      returns (reason: string, sleptFor: Option<int>, exit: Exit)
      requires LoopEnds(script)
      modifies this
      ensures Retention() == NextRetained(old(Retention()), wakeClock, sleepClock)
      ensures reason == WakeupReason.Message(cause)
      ensures sleptFor == SleepLog(old(Retention()), wakeClock)
      ensures var r := Run(script, 0, ElapsedSleep(old(Retention()), wakeClock), false);
        && exit == r.exit
        && hasActivated == r.activated
        && pinWrites == [PinWrite(OUTPUT_PIN, High)] + r.writes
      ensures exit == TriggerReleased || exit == SensorFailure
      ensures pinWrites[|pinWrites| - 1] == PinWrite(OUTPUT_PIN, High)
    {
      ghost var loop := Run(script, 0, ElapsedSleep(Retention(), wakeClock), false);
      hasActivated := false;
      pinWrites := [PinWrite(OUTPUT_PIN, High)];
      reason := WakeupReason.Message(cause);
      bootCount := bootCount + 1;
      wakeupTime := wakeClock;
      sleptFor := SleepLog(Retained(bootCount, sleepEnterTime, wakeupTime), wakeupTime);
      var iterations;
      exit, iterations := Logic(script);
      assert exit == loop.exit && hasActivated == loop.activated;
      assert pinWrites == [PinWrite(OUTPUT_PIN, High)] + loop.writes;
      RunWrites(script, 0, ElapsedSleep(old(Retention()), wakeClock), false);
      var k :| 0 <= k < |script| && !Sensed(script[k]);
      StoppingSampleEndsLoop(script, 0, k, ElapsedSleep(old(Retention()), wakeClock), false);
      sleepEnterTime := sleepClock;
    }
  }

  /**
   * The deep-sleep cycle driven by the hardware: each wake re-runs Setup on
   * the same RTC memory. The retained fields follow AfterEpisodes, each
   * episode's loop is the run its wake sees, and the latch and the pin writes
   * left behind are those of the last episode.
   */
  method DeepSleepCycle(d: Device, wakes: seq<Wake>) returns (exits: seq<Exit>)
    requires forall k :: 0 <= k < |wakes| ==> LoopEnds(wakes[k].script)
    modifies d
    ensures d.Retention() == AfterEpisodes(old(d.Retention()), wakes)
    ensures d.bootCount == old(d.bootCount) + |wakes|
    ensures |exits| == |wakes|
    ensures forall k :: 0 <= k < |exits| ==>
      exits[k] == EpisodeRun(old(d.Retention()), wakes, k).exit && exits[k] != ScriptExhausted
    ensures wakes == [] ==> d.hasActivated == old(d.hasActivated) && d.pinWrites == old(d.pinWrites)
    ensures wakes != [] ==>
      var last := EpisodeRun(old(d.Retention()), wakes, |wakes| - 1);
      d.hasActivated == last.activated && d.pinWrites == [PinWrite(OUTPUT_PIN, High)] + last.writes
  {
    ghost var start := d.Retention();
    exits := [];
    for i := 0 to |wakes|
      invariant d.Retention() == AfterEpisodes(start, wakes[..i])
      invariant |exits| == i
      invariant forall k :: 0 <= k < i ==> exits[k] == EpisodeRun(start, wakes, k).exit && exits[k] != ScriptExhausted
      invariant i == 0 ==> d.hasActivated == old(d.hasActivated) && d.pinWrites == old(d.pinWrites)
      invariant i > 0 ==>
        var last := EpisodeRun(start, wakes, i - 1);
        d.hasActivated == last.activated && d.pinWrites == [PinWrite(OUTPUT_PIN, High)] + last.writes
    {
      var w := wakes[i];
      ghost var run := EpisodeRun(start, wakes, i);
      AfterEpisodesSnoc(start, wakes[..i], w);
      assert wakes[..i + 1] == wakes[..i] + [w];
      var reason, sleptFor, exit := d.Setup(w.cause, w.wakeClock, w.sleepClock, w.script);
      assert exit == run.exit && exit != ScriptExhausted;
      assert d.hasActivated == run.activated && d.pinWrites == [PinWrite(OUTPUT_PIN, High)] + run.writes;
      ghost var before := exits;
      exits := exits + [exit];
      forall k | 0 <= k < i + 1
        ensures exits[k] == EpisodeRun(start, wakes, k).exit && exits[k] != ScriptExhausted
      {
        if k < i {
          assert exits[k] == before[k];
        }
      }
    }
    assert wakes[..|wakes|] == wakes;
    BootCountCountsWakes(start, wakes);
  }

  /**
   * Every write of an episode is to the output pin, the pin is High when the
   * episode ends, and it is driven Low at most once.
   */
  lemma EpisodeTrace(script: seq<Sample>, elapsed: int)
    ensures var writes := [PinWrite(OUTPUT_PIN, High)] + Run(script, 0, elapsed, false).writes;
      && (forall j :: 0 <= j < |writes| ==> writes[j].pin == OUTPUT_PIN)
      && writes[|writes| - 1].level == High
      && (forall i, j :: 0 <= i < j < |writes| && writes[i].level == Low ==> writes[j].level == High)
  {
    RunWrites(script, 0, elapsed, false);
  }
}
