/** Sending one history-sync request: readiness, retries and back-off of backfill.go, on a virtual clock in
    nanoseconds and an arbitrary environment. */
module Retry {
  import opened Text

  const SECOND: int := 1_000_000_000
  const MILLISECOND: int := 1_000_000

  datatype Options = Options(ready: int, stable: int, poll: int, initial: int, max: int)

  const DEFAULTS := Options(10 * SECOND, 750 * MILLISECOND, 100 * MILLISECOND, 250 * MILLISECOND, 2 * SECOND)

  predicate Normal(o: Options) {
    0 < o.ready && 0 <= o.stable && 0 < o.poll && 0 < o.initial <= o.max
  }

  method NormalizeSendRetryOptions(o: Options) returns (r: Options)
    ensures Normal(r) && (Normal(o) ==> r == o)
    ensures r.ready == (if o.ready <= 0 then 10_000_000_000 else o.ready)
    ensures r.stable == (if o.stable < 0 then 0 else o.stable)
    ensures r.poll == (if o.poll <= 0 then 100_000_000 else o.poll)
    ensures r.max == (if o.max <= 0 then 2_000_000_000 else o.max)
    ensures r.initial == Min(if o.initial <= 0 then 250_000_000 else o.initial, r.max)
  {
    r := o;
    if r.ready <= 0 {
      r := r.(ready := DEFAULTS.ready);
    }
    if r.stable < 0 {
      r := r.(stable := 0);
    }
    if r.poll <= 0 {
      r := r.(poll := DEFAULTS.poll);
    }
    if r.initial <= 0 {
      r := r.(initial := DEFAULTS.initial);
    }
    if r.max <= 0 {
      r := r.(max := DEFAULTS.max);
    }
    if r.initial > r.max {
      r := r.(initial := r.max);
    }
  }

  // ---------------------------------------------------------------- readiness

  /** What ends the select after a sample. */
  datatype Wake = Tick | Timer | Cancel

  datatype Sample = Sample(now: int, connected: bool, loggedIn: bool, wake: Wake)

  predicate Ready(x: Sample) {
    x.connected && x.loggedIn
  }

  /** Where the unbroken run of ready samples that ends at i starts. */
  function RunStart(trace: seq<Sample>, i: nat): (j: nat)
    requires i < |trace| && Ready(trace[i])
    ensures j <= i && (forall k | j <= k <= i :: Ready(trace[k]))
    ensures j > 0 ==> !Ready(trace[j - 1])
  {
    if i > 0 && Ready(trace[i - 1]) then RunStart(trace, i - 1) else i
  }

  /** The connection has been ready without a break for long enough. */
  predicate StableAt(trace: seq<Sample>, i: nat, stable: int)
    requires i < |trace|
  {
    Ready(trace[i]) && (stable == 0 || trace[i].now - trace[RunStart(trace, i)].now >= stable)
  }

  datatype ReadyOutcome = IsReady | TimedOut | Cancelled | StillWaiting

  /** The first sample from i on that is stable or whose wait does not end in a tick. */
  function EndOf(trace: seq<Sample>, stable: int, i: nat): (end: nat)
    requires i <= |trace|
    ensures i <= end <= |trace|
    decreases |trace| - i
  {
    if i == |trace| || StableAt(trace, i, stable) || !trace[i].wake.Tick? then i else EndOf(trace, stable, i + 1)
  }

  /** What a wait on these samples comes to; a trace that runs out leaves it waiting. */
  function ReadyResult(trace: seq<Sample>, stable: int): ReadyOutcome {
    var end := EndOf(trace, stable, 0);
    if end == |trace| then StillWaiting
    else if StableAt(trace, end, stable) then IsReady
    else if trace[end].wake.Timer? then TimedOut
    else Cancelled
  }

  /** waitForPeerSendReady: it succeeds at the first sample that is stable, and at no other; until then every
      wait ended in a tick. */
  method WaitForPeerSendReady(stable: int, trace: seq<Sample>) returns (outcome: ReadyOutcome, at: nat)
    requires 0 <= stable
    ensures at <= |trace| && (at == |trace| <==> outcome.StillWaiting?)
    ensures forall k | 0 <= k < at :: !StableAt(trace, k, stable) && trace[k].wake.Tick?
    ensures at < |trace| ==> (outcome.IsReady? <==> StableAt(trace, at, stable))
    ensures outcome.TimedOut? ==> trace[at].wake.Timer?
    ensures outcome.Cancelled? ==> trace[at].wake.Cancel?
    ensures outcome == ReadyResult(trace, stable)
  {
    var stableSince: Option<int> := None;
    at := 0;
    while at < |trace|
      invariant 0 <= at <= |trace| && EndOf(trace, stable, 0) == EndOf(trace, stable, at)
      invariant forall k | 0 <= k < at :: !StableAt(trace, k, stable) && trace[k].wake.Tick?
      invariant at == 0 || !Ready(trace[at - 1]) ==> stableSince.None?
      invariant at > 0 && Ready(trace[at - 1]) ==> stableSince == Some(trace[RunStart(trace, at - 1)].now)
    {
      var snap := trace[at];
      if Ready(snap) {
        if stable == 0 {
          return IsReady, at;
        }
        if stableSince.None? {
          stableSince := Some(snap.now);
        }
        if snap.now - stableSince.value >= stable {
          return IsReady, at;
        }
      } else {
        stableSince := None;
      }
      match snap.wake {
        case Cancel => return Cancelled, at;
        case Timer => return TimedOut, at;
        case Tick =>
      }
      at := at + 1;
    }
    outcome := StillWaiting;
  }

  /** A success really is an unbroken run of ready samples that spans the stable duration. */
  lemma StableMeansUnbroken(trace: seq<Sample>, i: nat, stable: int)
    requires i < |trace| && 0 <= stable && StableAt(trace, i, stable)
    ensures exists j: nat ::
              j <= i && trace[i].now - trace[j].now >= stable && forall k | j <= k <= i :: Ready(trace[k])
  {
    var j := if stable == 0 then i else RunStart(trace, i);
    assert trace[i].now - trace[j].now >= stable;
  }

  /** And under a clock that does not go back, any such run is noticed. */
  lemma UnbrokenMeansStable(trace: seq<Sample>, i: nat, j: nat, stable: int)
    requires j <= i < |trace| && 0 <= stable
    requires forall a, b | 0 <= a <= b < |trace| :: trace[a].now <= trace[b].now
    requires (forall k | j <= k <= i :: Ready(trace[k])) && trace[i].now - trace[j].now >= stable
    ensures StableAt(trace, i, stable)
  {
    RunStartIsFirst(trace, i, j);
    assert trace[RunStart(trace, i)].now <= trace[j].now;
  }

  lemma {:induction false} RunStartIsFirst(trace: seq<Sample>, i: nat, j: nat)
    requires j <= i < |trace| && forall k | j <= k <= i :: Ready(trace[k])
    ensures RunStart(trace, i) <= j
    decreases i
  {
    if j < i {
      RunStartIsFirst(trace, i - 1, j);
    }
  }

  /** From sample j to sample i the connection was up and logged in without a break, for long enough. */
  predicate LoggedInSpan(trace: seq<Sample>, j: nat, i: nat, stable: int) {
    && j <= i < |trace| && trace[i].now - trace[j].now >= stable
    && forall k | j <= k <= i :: trace[k].connected == true && trace[k].loggedIn == true
  }

  lemma StableHasSpan(trace: seq<Sample>, i: nat, stable: int) returns (j: nat)
    requires i < |trace| && 0 <= stable && StableAt(trace, i, stable)
    ensures LoggedInSpan(trace, j, i, stable)
  {
    j := if stable == 0 then i else RunStart(trace, i);
  }

  /** Only ticks until the end of the wait. */
  lemma {:induction false} EndIsFirst(trace: seq<Sample>, stable: int, i: nat)
    requires i <= |trace|
    ensures var end := EndOf(trace, stable, i);
            && (forall k | i <= k < end :: trace[k].wake.Tick? && !StableAt(trace, k, stable))
            && (end < |trace| ==> StableAt(trace, end, stable) || !trace[end].wake.Tick?)
    decreases |trace| - i
  {
    if i < |trace| && !StableAt(trace, i, stable) && trace[i].wake.Tick? {
      EndIsFirst(trace, stable, i + 1);
    }
  }

  /** A wait that succeeds has seen such a span, and only ticks before; without a sample that is both connected and
      logged in none succeeds. */
  lemma ReadyMeansLoggedIn(trace: seq<Sample>, stable: int)
    requires 0 <= stable && ReadyResult(trace, stable).IsReady?
    ensures exists j: nat, i: nat :: LoggedInSpan(trace, j, i, stable)
    ensures exists k :: 0 <= k < |trace| && trace[k].connected == true && trace[k].loggedIn == true
  {
    var i := EndOf(trace, stable, 0);
    var j := StableHasSpan(trace, i, stable);
    assert trace[j].connected == true && trace[j].loggedIn == true;
  }

  /** And under a clock that does not go back, a span that only ticks precede makes it succeed. */
  lemma LoggedInMeansReady(trace: seq<Sample>, j: nat, i: nat, stable: int)
    requires 0 <= stable && LoggedInSpan(trace, j, i, stable)
    requires forall a, b | 0 <= a <= b < |trace| :: trace[a].now <= trace[b].now
    requires forall k | 0 <= k < i :: trace[k].wake == Tick
    ensures ReadyResult(trace, stable) == IsReady
  {
    UnbrokenMeansStable(trace, i, j, stable);
    EndIsFirst(trace, stable, 0);
  }

  /** Otherwise the timer or the context ends it, whichever wakes it first. */
  lemma NotReadyIsWoken(trace: seq<Sample>, stable: int)
    requires 0 <= stable && (ReadyResult(trace, stable).TimedOut? || ReadyResult(trace, stable).Cancelled?)
    ensures var end := EndOf(trace, stable, 0);
            && end < |trace| && (forall k | 0 <= k < end :: trace[k].wake == Tick)
            && trace[end].wake == (if ReadyResult(trace, stable).TimedOut? then Timer else Cancel)
  {
    EndIsFirst(trace, stable, 0);
  }

  // ---------------------------------------------------------------- retries

  datatype SendOutcome = Sent(id: string) | NotConnected | OtherError

  /** What one turn of the loop meets: the samples of the wait for readiness and how long it took, the send, the
      sleep. */
  datatype Attempt = Attempt(
    samples: seq<Sample>,
    waited: nat,
    sending: nat,
    outcome: SendOutcome,
    sleepCancelled: bool,
    overslept: nat)

  datatype SendResult =
    | Success(id: string)
    | NotReady
    | WaitCancelled
    | Deadline
    | Failed
    | SleepCancelled
    | OutOfTrace

  /** The value of the backoff variable after k doublings. */
  function Backoff(o: Options, k: nat): int {
    if k == 0 then o.initial
    else
      var doubled := Wrap64(Backoff(o, k - 1) * 2);
      if doubled > o.max then o.max else doubled
  }

  /** x * 2^k */
  function Doubled(x: int, k: nat): int {
    if k == 0 then x else 2 * Doubled(x, k - 1)
  }

  /** The time at the head of the loop after k attempts that all ended in a sleep. */
  function Clock(o: Options, trace: seq<Attempt>, k: nat): int
    requires k <= |trace|
  {
    if k == 0 then 0
    else
      var sent := Clock(o, trace, k - 1) + trace[k - 1].waited + trace[k - 1].sending;
      sent + Min(Backoff(o, k - 1), o.ready - sent) + trace[k - 1].overslept
  }

  /** The time after the send of attempt k. */
  function AfterSend(o: Options, trace: seq<Attempt>, k: nat): int
    requires k < |trace|
  {
    Clock(o, trace, k) + trace[k].waited + trace[k].sending
  }

  /** The sleep after attempt k: the back-off, cut to the time left. */
  function SleepAt(o: Options, trace: seq<Attempt>, k: nat): int
    requires k < |trace|
  {
    Min(Backoff(o, k), o.ready - AfterSend(o, trace, k))
  }

  /** Attempt k is made, and its wait for readiness comes to this. */
  predicate Waits(o: Options, trace: seq<Attempt>, k: nat, outcome: ReadyOutcome) {
    k < |trace| && Clock(o, trace, k) < o.ready && ReadyResult(trace[k].samples, o.stable) == outcome
  }

  /** The connection gets ready for attempt k. */
  predicate Sends(o: Options, trace: seq<Attempt>, k: nat) {
    Waits(o, trace, k, IsReady)
  }

  /** It fails with "not connected", and time is left to sleep. */
  predicate Sleeps(o: Options, trace: seq<Attempt>, k: nat) {
    Sends(o, trace, k) && trace[k].outcome.NotConnected? && SleepAt(o, trace, k) > 0
  }

  /** And the sleep is not cancelled, so that the loop goes on. */
  predicate GoesOn(o: Options, trace: seq<Attempt>, k: nat) {
    Sleeps(o, trace, k) && !trace[k].sleepCancelled
  }

  /** What ends the loop in attempt k. */
  predicate Cause(o: Options, trace: seq<Attempt>, k: nat, result: SendResult)
    requires k <= |trace|
  {
    && (result.Success? <==> Sends(o, trace, k) && trace[k].outcome.Sent?)
    && (result.Success? ==> result.id == trace[k].outcome.id)
    && (result.Failed? <==> Sends(o, trace, k) && trace[k].outcome.OtherError?)
    && (result.SleepCancelled? <==> Sleeps(o, trace, k))
    && (result.Deadline? <==>
          || Clock(o, trace, k) >= o.ready
          || (Sends(o, trace, k) && trace[k].outcome.NotConnected? && !Sleeps(o, trace, k)))
    && (result.NotReady? <==> Waits(o, trace, k, TimedOut))
    && (result.WaitCancelled? <==> Waits(o, trace, k, Cancelled))
    && (result.OutOfTrace? <==> Waits(o, trace, k, StillWaiting) || (k == |trace| && Clock(o, trace, k) < o.ready))
  }

  /** Attempts before last go on, attempt last does not, and it gives the result its cause. */
  ghost predicate Outcome(o: Options, trace: seq<Attempt>, last: nat, result: SendResult) {
    && last <= |trace| && (forall k: nat | k < last :: GoesOn(o, trace, k)) && !GoesOn(o, trace, last)
    && Cause(o, trace, last, result)
  }

  /** The rest of the loop's body once time is left for attempt k: wait, send, sleep. */
  method TryOnce(o: Options, ghost trace: seq<Attempt>, ghost k: nat, a: Attempt, head: int, backoff: int)
    returns (made: bool, stopped: Option<SendResult>, slept: Option<int>, now: int)
    requires k < |trace| && a == trace[k] && head == Clock(o, trace, k) < o.ready && backoff == Backoff(o, k)
    requires 0 <= o.stable
    ensures made <==> Sends(o, trace, k)
    ensures stopped.None? <==> GoesOn(o, trace, k)
    ensures stopped.Some? ==> Cause(o, trace, k, stopped.value)
    ensures slept == if Sleeps(o, trace, k) then Some(SleepAt(o, trace, k)) else None
    ensures stopped.None? ==> now == Clock(o, trace, k + 1)
  {
    slept, now := None, head + a.waited;
    var readiness, _ := WaitForPeerSendReady(o.stable, a.samples);
    made := readiness.IsReady?;
    if !made {
      stopped := Some(if readiness.TimedOut? then NotReady
                      else if readiness.Cancelled? then WaitCancelled
                      else OutOfTrace);
      return;
    }
    now := now + a.sending;
    if a.outcome.Sent? {
      return made, Some(Success(a.outcome.id)), None, now;
    }
    if a.outcome.OtherError? {
      return made, Some(Failed), None, now;
    }
    var sleep := backoff;
    var remaining := o.ready - now;
    if sleep > remaining {
      sleep := remaining;
    }
    if sleep <= 0 {
      return made, Some(Deadline), None, now;
    }
    slept := Some(sleep);
    if a.sleepCancelled {
      return made, Some(SleepCancelled), slept, now;
    }
    now := now + sleep + a.overslept;
    stopped := None;
  }

  /** sendHistorySyncRequest after its argument checks: the result, the number of sends and every sleep, as functions
      of the options and of what the attempts meet. */
  method Send(o: Options, trace: seq<Attempt>) returns (result: SendResult, last: nat, sends: nat, sleeps: seq<int>)
    requires Normal(o)
    ensures Outcome(o, trace, last, result)
    ensures sends == last + if Sends(o, trace, last) then 1 else 0
    ensures |sleeps| == last + if Sleeps(o, trace, last) then 1 else 0
    ensures forall k | 0 <= k < |sleeps| :: sleeps[k] == SleepAt(o, trace, k)
  {
    var now, backoff := 0, o.initial;
    last, sends, sleeps := 0, 0, [];
    while true
      invariant last == sends == |sleeps| <= |trace|
      invariant now == Clock(o, trace, last) && backoff == Backoff(o, last)
      invariant forall k: nat | k < last :: GoesOn(o, trace, k)
      invariant forall k: nat | k < last :: sleeps[k] == SleepAt(o, trace, k)
      decreases |trace| - last
    {
      if o.ready - now <= 0 {
        return Deadline, last, sends, sleeps;
      }
      if last == |trace| {
        return OutOfTrace, last, sends, sleeps;
      }
      var a := trace[last];
      var made, stopped, slept;
      made, stopped, slept, now := TryOnce(o, trace, last, a, now, backoff);
      if made {
        sends := sends + 1;
      }
      if slept.Some? {
        sleeps := sleeps + [slept.value];
      }
      if stopped.Some? {
        return stopped.value, last, sends, sleeps;
      }
      backoff := DoubleBackoff(o, last, backoff);
      last := last + 1;
    }
  }

  method DoubleBackoff(o: Options, ghost k: nat, backoff: int) returns (r: int)
    requires backoff == Backoff(o, k)
    ensures r == Backoff(o, k + 1)
  {
    r := Wrap64(backoff * 2);
    if r > o.max {
      r := o.max;
    }
  }

  /** The options and the trace determine the attempt in which the loop ends, and its result. */
  lemma OutcomeIsDetermined(o: Options, trace: seq<Attempt>, last: nat, result: SendResult, last': nat,
                            result': SendResult)
    requires Outcome(o, trace, last, result) && Outcome(o, trace, last', result')
    ensures last == last' && result == result'
  {
    assert last < last' ==> GoesOn(o, trace, last);
    assert last' < last ==> GoesOn(o, trace, last');
  }

  /** The samples of attempt k have seen the connection up and logged in for long enough. */
  ghost predicate SeesLogin(trace: seq<Attempt>, k: nat, stable: int) {
    k < |trace| && exists j: nat, i: nat :: LoggedInSpan(trace[k].samples, j, i, stable)
  }

  /** Nothing is ever sent unless the samples of that very attempt have seen a connection that was up and logged in
      without a break for the stable duration. */
  lemma SendsAreLoggedIn(o: Options, trace: seq<Attempt>, last: nat, result: SendResult, k: nat)
    requires 0 <= o.stable && Outcome(o, trace, last, result)
    requires k < last + if Sends(o, trace, last) then 1 else 0
    ensures SeesLogin(trace, k, o.stable)
  {
    assert k < last ==> GoesOn(o, trace, k);
    ReadyMeansLoggedIn(trace[k].samples, o.stable);
  }

  // ---------------------------------------------------------------- the back-off is a capped power

  lemma Wrapped(n: int)
    requires 0 <= n <= 2 * INT64_MAX
    ensures if n <= INT64_MAX then Wrap64(n) == n else Wrap64(n) < 0
  {
    if n > INT64_MAX {
      assert (n - INT64_MIN) % 0x1_0000_0000_0000_0000 == n - INT64_MIN - 0x1_0000_0000_0000_0000;
    }
  }

  /** With a maximum that a doubling cannot overflow, the back-off is the initial one times 2^k, capped. */
  lemma {:induction false} BackoffIsCappedPower(o: Options, k: nat)
    requires Normal(o) && o.max <= INT64_MAX / 2
    ensures o.initial <= Backoff(o, k) == Min(Doubled(o.initial, k), o.max)
  {
    if k > 0 {
      BackoffIsCappedPower(o, k - 1);
      Wrapped(Backoff(o, k - 1) * 2);
    }
  }

  /** With a larger maximum, a back-off that a doubling overflows is followed by a negative one, and the attempt after
      it ends the loop. */
  lemma OverflowEndsTheLoop(o: Options, trace: seq<Attempt>, k: nat)
    requires Normal(o) && INT64_MAX / 2 < Backoff(o, k) <= INT64_MAX && k + 1 < |trace|
    ensures Backoff(o, k + 1) < 0 && !GoesOn(o, trace, k + 1) && !Sleeps(o, trace, k + 1)
  {
    Wrapped(Backoff(o, k) * 2);
  }

  /** So, whatever the maximum, every sleep that happens is the capped power, cut to the time left. */
  lemma {:induction false} SleepIsCappedPower(o: Options, trace: seq<Attempt>, k: nat)
    requires Normal(o) && o.max <= INT64_MAX && Sleeps(o, trace, k)
    requires forall j: nat | j < k :: GoesOn(o, trace, j)
    ensures o.initial <= Backoff(o, k) == Min(Doubled(o.initial, k), o.max)
    ensures SleepAt(o, trace, k) == Min(Min(Doubled(o.initial, k), o.max), o.ready - AfterSend(o, trace, k))
    decreases k
  {
    if k > 0 {
      assert GoesOn(o, trace, k - 1);
      SleepIsCappedPower(o, trace, k - 1);
      Wrapped(Backoff(o, k - 1) * 2);
    }
  }

  // ---------------------------------------------------------------- the bounds

  function SleepsUpTo(o: Options, trace: seq<Attempt>, n: nat): seq<int>
    requires n <= |trace|
  {
    seq(n, (k: nat) requires k < n => SleepAt(o, trace, k))
  }

  /** All sleeps together fit into the ready timeout, and into the time that has passed. */
  lemma {:induction false} SleepsFit(o: Options, trace: seq<Attempt>, n: nat)
    requires Normal(o) && n <= |trace| && forall k: nat | k < n :: Sleeps(o, trace, k)
    ensures Sum(SleepsUpTo(o, trace, n)) <= o.ready && 0 <= Sum(SleepsUpTo(o, trace, n)) <= Clock(o, trace, n)
    decreases n
  {
    if n > 0 {
      SleepsFit(o, trace, n - 1);
      assert Sleeps(o, trace, n - 1);
      var s := SleepsUpTo(o, trace, n);
      assert s[..|s| - 1] == SleepsUpTo(o, trace, n - 1);
    }
  }

  /** As long as time is left, no sleep was cut, so each took at least the initial back-off. */
  lemma {:induction false} SleepsTakeTime(o: Options, trace: seq<Attempt>, n: nat)
    requires Normal(o) && o.max <= INT64_MAX && n <= |trace| && forall k: nat | k < n :: GoesOn(o, trace, k)
    requires Clock(o, trace, n) < o.ready
    ensures Times(n, o.initial) <= Clock(o, trace, n)
    decreases n
  {
    if n > 0 {
      assert GoesOn(o, trace, n - 1);
      SleepIsCappedPower(o, trace, n - 1);
      SleepsTakeTime(o, trace, n - 1);
    }
  }

  lemma MoreThan(n: int, q: int, x: int)
    requires x > 0
    ensures n > q ==> n * x >= (q + 1) * x
  {
    if n > q {
      assert n * x - (q + 1) * x == (n - q - 1) * x;
    }
  }

  lemma FitsInQuotient(n: nat, x: int, r: int)
    requires x > 0 && Times(n, x) < r
    ensures n <= r / x
  {
    TimesIsProduct(n, x);
    MoreThan(n, r / x, x);
    assert r < (r / x + 1) * x;
  }

  /** At most timeout / initial + 1 sends, whatever the ending. */
  lemma SendsBounded(o: Options, trace: seq<Attempt>, last: nat, result: SendResult, sends: nat)
    requires Normal(o) && o.max <= INT64_MAX && Outcome(o, trace, last, result)
    requires sends == last + if Sends(o, trace, last) then 1 else 0
    ensures sends <= o.ready / o.initial + 1
  {
    if sends > 0 {
      var n := sends - 1;
      assert n < last ==> GoesOn(o, trace, n);
      SleepsTakeTime(o, trace, n);
      FitsInQuotient(n, o.initial, o.ready);
    }
  }

  /** The bounds of a whole loop, whatever the ending: on the sends, on what comes before each, and on the sleeps. */
  lemma RunIsBounded(o: Options, trace: seq<Attempt>, last: nat, result: SendResult, sends: nat)
    requires Normal(o) && o.max <= INT64_MAX && Outcome(o, trace, last, result)
    requires sends == last + if Sends(o, trace, last) then 1 else 0
    ensures sends <= o.ready / o.initial + 1 && Sum(SleepsUpTo(o, trace, last)) <= o.ready
    ensures forall k: nat | k < sends :: SeesLogin(trace, k, o.stable)
  {
    SendsBounded(o, trace, last, result, sends);
    forall k: nat | k < sends ensures SeesLogin(trace, k, o.stable) {
      SendsAreLoggedIn(o, trace, last, result, k);
    }
    forall k: nat | k < last ensures Sleeps(o, trace, k) {
      assert GoesOn(o, trace, k);
    }
    SleepsFit(o, trace, last);
  }

  /** The options of the daemon give at most 41 sends, each after three quarters of a second logged in, and ten seconds
      of sleeps. */
  lemma DefaultsInSeconds()
    ensures Normal(DEFAULTS) && DEFAULTS.max <= INT64_MAX
    ensures DEFAULTS.ready / DEFAULTS.initial + 1 == 41
    ensures DEFAULTS.stable == 750_000_000 && DEFAULTS.ready == 10_000_000_000 && DEFAULTS.poll == 100_000_000
  {
  }
}
