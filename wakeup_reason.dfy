/**
 * The wake-cause report printed at every boot (print_wakeup_reason in
 * src/main.cpp): a total mapping from the ESP32 wake cause to a message.
 */
module WakeupReason {
  import opened Wrappers

  /** The causes the ESP32 sleep controller can report (esp_sleep_wakeup_cause_t). */
  datatype WakeupCause =
    | Undefined      // not a wake from deep sleep: power-on or reset
    | AllSources
    | Ext0           // external signal on one RTC_IO pin
    | Ext1           // external signal through RTC_CNTL
    | Timer
    | Touchpad
    | Ulp            // program on the ultra-low-power co-processor
    | Gpio
    | Uart
    | Wifi
    | Cocpu
    | CocpuTrapTrig
    | Bluetooth

  const Ext0Message: string := "Wakeup caused by external signal using RTC_IO"
  const Ext1Message: string := "Wakeup caused by external signal using RTC_CNTL"
  const TimerMessage: string := "Wakeup caused by timer"
  const TouchpadMessage: string := "Wakeup caused by touchpad"
  const UlpMessage: string := "Wakeup caused by ULP program"
  const NotDeepSleepMessage: string := "Wakeup was not caused by deep sleep"

  /** The five causes the switch names; every other cause falls to its default. */
  predicate IsNamedCause(cause: WakeupCause) {
    cause.Ext0? || cause.Ext1? || cause.Timer? || cause.Touchpad? || cause.Ulp?
  }

  /** The line printed for a wake cause. */
  function Message(cause: WakeupCause): (msg: string)
    ensures msg != []
    ensures msg == NotDeepSleepMessage <==> !IsNamedCause(cause)
  {
    match cause
    case Ext0 => Ext0Message
    case Ext1 => Ext1Message
    case Timer => TimerMessage
    case Touchpad => TouchpadMessage
    case Ulp => UlpMessage
    case _ => NotDeepSleepMessage
  }

  /** Reads a printed line back: the named cause it reports, if any. */
  function CauseOf(msg: string): (cause: Option<WakeupCause>)
  {
    if msg == Ext0Message then Some(Ext0)
    else if msg == Ext1Message then Some(Ext1)
    else if msg == TimerMessage then Some(Timer)
    else if msg == TouchpadMessage then Some(Touchpad)
    else if msg == UlpMessage then Some(Ulp)
    else None
  }

  /**
   * The message determines the cause exactly for the five named causes and
   * carries no cause for all the others.
   */
  lemma MessageRoundTrip(cause: WakeupCause)
    ensures CauseOf(Message(cause)) == if IsNamedCause(cause) then Some(cause) else None
  {
  }

  /** Two causes that print the same line are the same cause, or both unnamed. */
  lemma MessageInjective(a: WakeupCause, b: WakeupCause)
    requires Message(a) == Message(b)
    ensures a == b || (!IsNamedCause(a) && !IsNamedCause(b))
  {
    MessageRoundTrip(a);
    MessageRoundTrip(b);
  }
}
