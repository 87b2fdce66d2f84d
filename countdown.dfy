/** components/countdown.tsx: the elapsed-time counter shown while an image
    is generated or edited. The two interval timers become explicit tick
    calls; the `onTick` callback is not part of this model. */
module Countdown {
  import opened Text

  /** `formattedSeconds`: the seconds in decimal, padded with '0' to two characters. */
  function FormatSeconds(elapsed: nat): (r: string)
    ensures |r| >= 2 && AllDigits(r) && ParseDecimal(r) == elapsed
    ensures elapsed < 10 ==> r == ['0', DigitChar(elapsed)]
    ensures elapsed >= 10 ==> r == NatToString(elapsed)
  {
    var digits := NatToString(elapsed);
    var r := PadStart(digits, 2, '0');
    ParseNatToString(elapsed);
    ParseLeadingZeros(r[..|r| - |digits|], digits);
    assert r == r[..|r| - |digits|] + digits;
    r
  }

  /** `formattedMilliseconds`: hundredths of a second, padded to two characters;
      exactly two digits while the counter is below 1000. */
  function FormatMilliseconds(ms: nat): (r: string)
    ensures AllDigits(r) && ParseDecimal(r) == ms / 10
    ensures ms < 1000 ==> |r| == 2
  {
    var digits := NatToString(ms / 10);
    var r := PadStart(digits, 2, '0');
    ParseNatToString(ms / 10);
    ParseLeadingZeros(r[..|r| - |digits|], digits);
    assert r == r[..|r| - |digits|] + digits;
    NatToStringBelow100(ms / 10);
    r
  }

  lemma NatToStringBelow100(n: nat)
    ensures n < 100 ==> |NatToString(n)| <= 2
  {
  }

  /** One tick of the 10 ms timer. */
  function MillisecondStep(ms: nat): nat { (ms + 10) % 1000 }

  /** The counter after `n` ticks of the 10 ms timer from `ms`. */
  function MillisecondTicks(ms: nat, n: nat): nat
    decreases n
  {
    if n == 0 then ms else MillisecondTicks(MillisecondStep(ms), n - 1)
  }

  /** After `n` ticks from zero, the counter shows the hundredths part of `10 n` ms. */
  lemma {:induction false} MillisecondTicksWrap(ms: nat, n: nat)
    requires ms < 1000
    ensures MillisecondTicks(ms, n) == (ms + 10 * n) % 1000
    decreases n
  {
    if n > 0 {
      MillisecondTicksWrap(MillisecondStep(ms), n - 1);
      ModAddStep(ms + 10, 10 * (n - 1));
    }
  }

  lemma ModAddStep(a: nat, b: nat)
    ensures (a % 1000 + b) % 1000 == (a + b) % 1000
  {
    var q := a / 1000;
    assert a == q * 1000 + a % 1000;
  }

  /** State of `useCountdown`: seconds elapsed, the wrapping millisecond
      counter, and whether the timers run. */
  class Timer {
    var elapsedTime: nat
    var milliseconds: nat
    var isRunning: bool

    /** The millisecond counter stays in [0, 1000) on a multiple of 10. */
    ghost predicate Valid()
      reads this
    {
      milliseconds < 1000 && milliseconds % 10 == 0
    }

    constructor ()
      ensures Valid() && elapsedTime == 0 && milliseconds == 0 && !isRunning
    {
      elapsedTime, milliseconds, isRunning := 0, 0, false;
    }

    method Reset()
      requires Valid()
      modifies this
      ensures Valid() && elapsedTime == 0 && milliseconds == 0 && isRunning == old(isRunning)
    {
      elapsedTime, milliseconds := 0, 0;
    }

    method Start()
      requires Valid()
      modifies this
      ensures Valid() && isRunning
      ensures elapsedTime == old(elapsedTime) && milliseconds == old(milliseconds)
    {
      isRunning := true;
    }

    method Stop()
      requires Valid()
      modifies this
      ensures Valid() && !isRunning
      ensures elapsedTime == old(elapsedTime) && milliseconds == old(milliseconds)
    {
      isRunning := false;
    }

    /** The effect on a change of the `loading` prop: reset (when asked to)
        and start while loading; stop, keeping the counters, otherwise. */
    method LoadingChanged(loading: bool, resetOnLoadingChange: bool)
      requires Valid()
      modifies this
      ensures Valid() && isRunning == loading
      ensures loading && resetOnLoadingChange ==> elapsedTime == 0 && milliseconds == 0
      ensures !(loading && resetOnLoadingChange) ==> elapsedTime == old(elapsedTime) && milliseconds == old(milliseconds)
    {
      if loading {
        if resetOnLoadingChange {
          Reset();
        }
        Start();
      } else {
        Stop();
      }
    }

    /** The 1 s timer, which exists only while running. */
    method SecondTick()
      requires Valid()
      modifies this
      ensures Valid() && isRunning == old(isRunning) && milliseconds == old(milliseconds)
      ensures elapsedTime == if isRunning then old(elapsedTime) + 1 else old(elapsedTime)
    {
      if isRunning {
        elapsedTime := elapsedTime + 1;
      }
    }

    /** The 10 ms timer, which exists only while running. */
    method MillisecondTick()
      requires Valid()
      modifies this
      ensures Valid() && isRunning == old(isRunning) && elapsedTime == old(elapsedTime)
      ensures milliseconds == if isRunning then MillisecondStep(old(milliseconds)) else old(milliseconds)
    {
      if isRunning {
        milliseconds := MillisecondStep(milliseconds);
      }
    }

    function FormattedSeconds(): (r: string)
      reads this
      ensures |r| >= 2 && AllDigits(r) && ParseDecimal(r) == elapsedTime
      ensures elapsedTime < 10 ==> r == ['0', DigitChar(elapsedTime)]
      ensures elapsedTime >= 10 ==> r == NatToString(elapsedTime)
    {
      FormatSeconds(elapsedTime)
    }

    function FormattedMilliseconds(): (r: string)
      requires Valid()
      reads this
      ensures |r| == 2 && AllDigits(r) && ParseDecimal(r) == milliseconds / 10
    {
      FormatMilliseconds(milliseconds)
    }
  }
}
