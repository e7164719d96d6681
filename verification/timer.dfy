/** The countdown behind the attention window: a counter that reports its starting
    value at once, then loses one per elapsed second and reports the new value, and
    stops and fires its expiry once the value is zero or less. The stop handle it
    returns is the Cancel method. */
module Timer {

  /** One notification to the countdown's listener, in the order it is made. */
  datatype Event = Tick(seconds: int) | Expire

  /** The state of one countdown: the counter, whether its interval is still
      scheduled, how often expiry has fired and the notifications made so far. */
  datatype Status = Status(remaining: int, active: bool, expiredCount: nat, log: seq<Event>)

  /** A countdown just started with `seconds`: it has reported `seconds` and nothing else. */
  function Begin(seconds: int): Status {
    Status(seconds, true, 0, [Tick(seconds)])
  }

  /** One elapsed second. */
  function Elapse(t: Status): (r: Status)
    ensures r.remaining <= t.remaining
    ensures !t.active ==> r == t
    ensures t.active ==> r.remaining == t.remaining - 1
    ensures t.active ==> r.log == t.log + [Tick(r.remaining)] + (if r.active then [] else [Expire])
    ensures r.expiredCount == t.expiredCount + (if t.active && r.remaining <= 0 then 1 else 0)
    ensures t.active && r.remaining <= 0 <==> t.active && !r.active
  {
    if !t.active then t
    else
      var left := t.remaining - 1;
      if left <= 0 then Status(left, false, t.expiredCount + 1, t.log + [Tick(left), Expire])
      else Status(left, true, t.expiredCount, t.log + [Tick(left)])
  }

  /** The stop handle: no further ticks or expiry; nothing reported is taken back. */
  function Stopped(t: Status): (r: Status)
    ensures !r.active
    ensures r.remaining == t.remaining && r.expiredCount == t.expiredCount && r.log == t.log
    ensures !t.active ==> r == t
  {
    t.(active := false)
  }

  /** `k` elapsed seconds. */
  function Run(t: Status, k: nat): Status
    decreases k
  {
    if k == 0 then t else Elapse(Run(t, k - 1))
  }

  /** The number of elapsed seconds after which a countdown from `seconds` expires:
      `seconds` when it is positive, and one otherwise, because expiry is tested with
      "at most zero" after the first decrement. */
  function Deadline(seconds: int): (d: nat)
    ensures d >= 1
    ensures seconds - d <= 0
    ensures seconds - d == 0 || seconds <= 0
    ensures seconds <= 0 ==> d == 1
  {
    if seconds >= 1 then seconds else 1
  }

  /** The ticks `seconds`, `seconds` - 1, ..., `seconds` - `m`, in that order. */
  function Ticks(seconds: int, m: nat): seq<Event>
    decreases m
  {
    if m == 0 then [Tick(seconds)] else Ticks(seconds, m - 1) + [Tick(seconds - m)]
  }

  /** The i-th of those ticks reports `seconds` - i: each tick is one less than the one
      before it. */
  lemma {:induction false} TicksAt(seconds: int, m: nat, i: nat)
    requires i <= m
    ensures |Ticks(seconds, m)| == m + 1 && Ticks(seconds, m)[i] == Tick(seconds - i)
  {
    if m > 0 {
      if i < m {
        TicksAt(seconds, m - 1, i);
      } else {
        TicksAt(seconds, m - 1, 0);
      }
    }
  }

  /** The whole behaviour of a countdown from `seconds` after `k` elapsed seconds:
      before the deadline it is running and has ticked once per second after the
      first tick; from the deadline on it has ticked down to `seconds` - Deadline,
      fired expiry once, and stopped. */
  lemma {:induction false} RunFromStart(seconds: int, k: nat)
    ensures k < Deadline(seconds) ==>
      Run(Begin(seconds), k) == Status(seconds - k, true, 0, Ticks(seconds, k))
    ensures k >= Deadline(seconds) ==>
      Run(Begin(seconds), k)
        == Status(seconds - Deadline(seconds), false, 1, Ticks(seconds, Deadline(seconds)) + [Expire])
  {
    if k > 0 {
      RunFromStart(seconds, k - 1);
    }
  }

  /** A positive start `n` reports n, n-1, ..., 0 (n + 1 ticks) and then expires once;
      before that it neither expires nor stops. */
  lemma PositiveCountdown(n: int)
    requires n >= 1
    ensures Run(Begin(n), n).log == Ticks(n, n) + [Expire]
    ensures |Ticks(n, n)| == n + 1 && Ticks(n, n)[0] == Tick(n) && Ticks(n, n)[n] == Tick(0)
    ensures Run(Begin(n), n).expiredCount == 1 && !Run(Begin(n), n).active
    ensures forall k :: 0 <= k < n ==> Run(Begin(n), k).active && Run(Begin(n), k).expiredCount == 0
  {
    RunFromStart(n, n);
    TicksAt(n, n, 0);
    TicksAt(n, n, n);
    forall k | 0 <= k < n
      ensures Run(Begin(n), k).active && Run(Begin(n), k).expiredCount == 0
    {
      RunFromStart(n, k);
    }
  }

  /** A start at zero or below is reported, then the first elapsed second reports one
      less and expires at once. */
  lemma NonPositiveStart(n: int)
    requires n <= 0
    ensures Run(Begin(n), 1).log == [Tick(n), Tick(n - 1), Expire]
    ensures !Run(Begin(n), 1).active && Run(Begin(n), 1).expiredCount == 1
  {
    RunFromStart(n, 1);
  }

  /** A countdown is running exactly before its deadline. */
  lemma ActiveUntilDeadline(n: int, k: nat)
    ensures Run(Begin(n), k).active <==> k < Deadline(n)
  {
    RunFromStart(n, k);
  }

  /** Once expired, further seconds change nothing: no tick and no second expiry. */
  lemma QuietAfterExpiry(n: int, k: nat, j: nat)
    requires k >= Deadline(n)
    ensures Run(Begin(n), k + j) == Run(Begin(n), k)
  {
    RunFromStart(n, k);
    RunFromStart(n, k + j);
  }

  /** A stopped countdown stays exactly as it is however many seconds elapse. */
  lemma {:induction false} StoppedStaysPut(t: Status, j: nat)
    requires !t.active
    ensures Run(t, j) == t
  {
    if j > 0 {
      StoppedStaysPut(t, j - 1);
    }
  }

  /** Stopping before the deadline suppresses every later tick and the expiry. */
  lemma CancelBeforeExpiry(n: int, k: nat, j: nat)
    requires k < Deadline(n)
    ensures Run(Stopped(Run(Begin(n), k)), j).log == Ticks(n, k)
    ensures Run(Stopped(Run(Begin(n), k)), j).expiredCount == 0
  {
    RunFromStart(n, k);
    StoppedStaysPut(Stopped(Run(Begin(n), k)), j);
  }

  /** The counter never increases, however many seconds elapse. */
  lemma {:induction false} NeverIncreases(t: Status, k: nat)
    ensures Run(t, k).remaining <= t.remaining
  {
    if k > 0 {
      NeverIncreases(t, k - 1);
    }
  }

  /** One running countdown, updated in place by its interval and its stop handle. */
  class Countdown {
    var remaining: int
    var active: bool
    var expiredCount: nat
    /** Every tick and expiry reported to the listener so far. */
    ghost var log: seq<Event>

    ghost function State(): Status
      reads this
    {
      Status(remaining, active, expiredCount, log)
    }

    /** Starts counting down from `seconds`, reporting `seconds` before any time passes. */
    constructor Start(seconds: int)
      ensures State() == Begin(seconds)
    {
      remaining := seconds;
      active := true;
      expiredCount := 0;
      log := [Tick(seconds)];
    }

    /** One firing of the interval: decrement, report, and expire at zero or below. */
    method Step()
      modifies this
      ensures State() == Elapse(old(State()))
    {
      if active {
        remaining := remaining - 1;
        log := log + [Tick(remaining)];
        if remaining <= 0 {
          active := false;
          expiredCount := expiredCount + 1;
          log := log + [Expire];
        }
      }
    }

    /** The returned stop function: clears the interval, whatever its state. */
    method Cancel()
      modifies this
      ensures State() == Stopped(old(State()))
    {
      active := false;
    }
  }
}
