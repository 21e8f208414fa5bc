/** The connection health of the Modbus collector (BMSDataCollector of modbus/modbus_client.py). */
module ModbusHealth {

  datatype ConnectionState = Disconnected | Connected | Unstable | Degraded

  const UNSTABLE_THRESHOLD := 2
  const DEGRADED_THRESHOLD := 10
  const MAX_DELAY := 60.0
  const MAX_INTERVAL := 1800.0

  /** How one iteration of the collection loop went: it read a snapshot, or the client raised its error or could not
      connect, or something else was raised. */
  datatype Outcome = Success | ClientError | OtherError

  datatype Health = Health(state: ConnectionState, failures: nat, reconnectDelay: real, degradedRetries: nat)

  function Min(a: real, b: real): real {
    if a <= b then a else b
  }

  function AfterSuccess(h: Health): Health {
    Health(Connected, 0, 1.0, if h.state == Degraded then 0 else h.degradedRetries)
  }

  /** One iteration of _collection_loop */
  function Iterate(h: Health, o: Outcome): Health {
    if h.state == Degraded then
      if o == Success then AfterSuccess(h) else h.(degradedRetries := h.degradedRetries + 1)
    else
      match o
      case Success => AfterSuccess(h)
      case OtherError => h
      case ClientError =>
        var f := h.failures + 1;
        if f >= DEGRADED_THRESHOLD then h.(state := Degraded, failures := f)
        else h.(
          state := if f >= UNSTABLE_THRESHOLD then Unstable else h.state,
          failures := f,
          reconnectDelay := Min(h.reconnectDelay * 2.0, MAX_DELAY))
  }

  function IterateAll(h: Health, history: seq<Outcome>): Health {
    if history == [] then h else Iterate(IterateAll(h, history[..|history| - 1]), history[|history| - 1])
  }

  /** A new collector, after start; connected tells whether its first connection attempt succeeded. */
  function Fresh(connected: bool): Health {
    Health(if connected then Connected else Disconnected, 0, 1.0, 0)
  }

  // ----- health as a function of the history -----

  /** Iteration i failed with a client error and no later one succeeded. */
  ghost predicate FailedSince(history: seq<Outcome>, i: nat) {
    && i < |history| && history[i] == ClientError
    && forall j :: i < j < |history| ==> history[j] != Success
  }

  ghost function Failures(history: seq<Outcome>): set<nat> {
    set i | 0 <= i < |history| && FailedSince(history, i)
  }

  ghost function FailuresIn(history: seq<Outcome>): (f: nat)
    ensures f <= DEGRADED_THRESHOLD
  {
    var n := |Failures(history)|;
    if n <= DEGRADED_THRESHOLD then n else DEGRADED_THRESHOLD
  }

  lemma FailuresGrow(history: seq<Outcome>, o: Outcome)
    ensures |Failures(history + [o])| ==
      match o
      case Success => 0
      case ClientError => |Failures(history)| + 1
      case OtherError => |Failures(history)|
  {
    var all := history + [o];
    var n := |history|;
    forall i: nat ensures FailedSince(all, i) <==>
      (i == n && o == ClientError) || (i < n && o != Success && FailedSince(history, i))
    {
      OneMore(history, o, i);
    }
    hide FailedSince;
    match o {
      case Success => assert Failures(all) == {};
      case ClientError => assert Failures(all) == Failures(history) + {n};
      case OtherError => assert Failures(all) == Failures(history);
    }
  }

  lemma OneMore(history: seq<Outcome>, o: Outcome, i: nat)
    ensures FailedSince(history + [o], i) <==>
      (i == |history| && o == ClientError) || (i < |history| && o != Success && FailedSince(history, i))
  {
    var all := history + [o];
    if i < |history| {
      assert all[i] == history[i] && all[|history|] == o;
      if o != Success && FailedSince(history, i) {
        forall j | i < j < |all| ensures all[j] != Success {
          assert j < |history| ==> all[j] == history[j];
        }
      }
      if FailedSince(all, i) {
        forall j | i < j < |history| ensures history[j] != Success {
          assert all[j] == history[j];
        }
      }
    }
  }

  function Pow2(n: nat): real {
    if n == 0 then 1.0 else 2.0 * Pow2(n - 1)
  }

  function DelayFor(failures: nat): real {
    Min(Pow2(if failures < DEGRADED_THRESHOLD then failures else DEGRADED_THRESHOLD - 1), MAX_DELAY)
  }

  /** Health is a function of the read history: the failure count is the number of client errors since the last
      success, counted up to ten; the collector is UNSTABLE exactly from two to nine failures, DEGRADED exactly at ten,
      and otherwise CONNECTED, or still DISCONNECTED if it has never read; the reconnect delay is determined by the
      count. */
  lemma {:induction false} HealthFollowsHistory(connected: bool, history: seq<Outcome>)
    ensures var h := IterateAll(Fresh(connected), history); var f := FailuresIn(history);
      && h.failures == f <= 10
      && (h.state == Degraded <==> f == 10)
      && (h.state == Unstable <==> 2 <= f < 10)
      && (h.state == Disconnected <==> f < 2 && !connected && Success !in history)
      && h.reconnectDelay == DelayFor(f)
      && (h.state != Degraded ==> h.degradedRetries == 0)
  {
    if history == [] {
      assert Failures(history) == {};
    } else {
      var front, o := history[..|history| - 1], history[|history| - 1];
      HealthFollowsHistory(connected, front);
      assert history == front + [o];
      FailuresGrow(front, o);
      hide Failures;
    }
  }

  /** The reconnect delay is a second before any failure, doubles with each failure and never exceeds a minute. */
  lemma DelayDoubles(f: nat)
    ensures DelayFor(0) == 1.0
    ensures f + 1 < 10 ==> DelayFor(f + 1) == if DelayFor(f) <= 30.0 then 2.0 * DelayFor(f) else 60.0
  {
  }

  // ----- the retry interval while DEGRADED -----

  function Pow15(n: nat): (p: real)
    ensures p >= 1.0
  {
    if n == 0 then 1.0 else 1.5 * Pow15(n - 1)
  }

  function Escalated(base: real, k: nat): real {
    base * Pow15(k)
  }

  /** The wait before retry number n. */
  function RetryInterval(base: real, n: nat): real {
    Min(Escalated(base, n / 4), MAX_INTERVAL)
  }

  lemma {:induction false} Pow15Grows(m: nat, n: nat)
    requires m <= n
    ensures Pow15(m) <= Pow15(n)
  {
    if m < n {
      Pow15Grows(m, n - 1);
    }
  }

  lemma IntervalGrows(base: real, m: nat, n: nat)
    requires base >= 0.0 && m <= n
    ensures RetryInterval(base, m) <= RetryInterval(base, n) <= MAX_INTERVAL
  {
    Pow15Grows(m / 4, n / 4);
    var p, q := Pow15(m / 4), Pow15(n / 4);
    assert base * (q - p) >= 0.0;
  }

  lemma EscalatedByHalf(base: real, k: nat)
    ensures Escalated(base, 0) == base
    ensures Escalated(base, k + 1) == 1.5 * Escalated(base, k)
  {
    var p := Pow15(k);
    assert Pow15(k + 1) == 1.5 * p;
    assert base * (1.5 * p) == 1.5 * (base * p);
  }

  /** The first three retries wait the base interval, every fourth one half as long again as those before it, and none
      longer than half an hour. */
  lemma IntervalByFours(base: real, n: nat)
    requires base >= 0.0
    ensures n < 4 ==> RetryInterval(base, n) == Min(base, 1800.0)
    ensures n % 4 != 3 ==> RetryInterval(base, n + 1) == RetryInterval(base, n)
    ensures RetryInterval(base, n + 4) == Min(1.5 * RetryInterval(base, n), 1800.0)
  {
    EscalatedByHalf(base, n / 4);
    hide Escalated;
    assert (n + 4) / 4 == n / 4 + 1;
    assert n < 4 ==> n / 4 == 0;
    assert n % 4 != 3 ==> (n + 1) / 4 == n / 4;
  }

  /** How long an iteration sleeps before it retries or reconnects. */
  function WaitIn(h: Health, o: Outcome, base: real): real {
    if h.state == Degraded then RetryInterval(base, h.degradedRetries + 1)
    else if o == ClientError && h.failures + 1 < DEGRADED_THRESHOLD then h.reconnectDelay
    else 0.0
  }

  /** Outside DEGRADED only a client error waits, for the delay that the failures so far have earned; the tenth failure
      in a row and everything else do not wait. */
  lemma WaitsFollowHistory(connected: bool, history: seq<Outcome>, o: Outcome, base: real)
    requires FailuresIn(history) < 10
    ensures WaitIn(IterateAll(Fresh(connected), history), o, base) ==
      if o == ClientError && FailuresIn(history) < 9 then DelayFor(FailuresIn(history)) else 0.0
  {
    HealthFollowsHistory(connected, history);
  }

  /** The collector becomes DEGRADED with the last outcome of before, and none of the outcomes of retries is a
      success. */
  ghost predicate DegradedPeriod(connected: bool, before: seq<Outcome>, retries: seq<Outcome>) {
    && before != []
    && IterateAll(Fresh(connected), before[..|before| - 1]).state != Degraded
    && IterateAll(Fresh(connected), before).state == Degraded
    && Success !in retries
  }

  lemma {:induction false} RetriesAreCounted(connected: bool, before: seq<Outcome>, retries: seq<Outcome>)
    requires DegradedPeriod(connected, before, retries)
    ensures var h := IterateAll(Fresh(connected), before + retries);
      h.state == Degraded && h.degradedRetries == |retries|
    decreases |retries|
  {
    if retries == [] {
      HealthFollowsHistory(connected, before[..|before| - 1]);
      assert before + retries == before;
    } else {
      var front := retries[..|retries| - 1];
      RetriesAreCounted(connected, before, front);
      assert (before + retries)[..|before + retries| - 1] == before + front;
    }
  }

  /** In every run and every degraded period of it, the k-th retry waits the k-th interval; so the waits never get
      shorter until the collector leaves DEGRADED, and none exceeds half an hour. */
  lemma RetriesSlowDown(connected: bool, base: real, before: seq<Outcome>, retries: seq<Outcome>, j: nat, k: nat)
    requires DegradedPeriod(connected, before, retries) && base >= 0.0 && j <= k <= |retries|
    ensures var first := WaitIn(IterateAll(Fresh(connected), before + retries[..j]), ClientError, base);
      forall o ::
        var wait := WaitIn(IterateAll(Fresh(connected), before + retries[..k]), o, base);
        wait == RetryInterval(base, k + 1) && first <= wait <= MAX_INTERVAL
  {
    RetriesAreCounted(connected, before, retries[..j]);
    RetriesAreCounted(connected, before, retries[..k]);
    IntervalGrows(base, j + 1, k + 1);
  }

  /** The collector. */
  class BMSDataCollector {
    var state: ConnectionState
    var consecutiveFailures: nat
    var reconnectDelay: real
    var degradedRetries: nat

    constructor (connected: bool)
      ensures View() == Fresh(connected)
    {
      state := if connected then Connected else Disconnected;
      consecutiveFailures, reconnectDelay, degradedRetries := 0, 1.0, 0;
    }

    function View(): Health
      reads this
    {
      Health(state, consecutiveFailures, reconnectDelay, degradedRetries)
    }

    method TransitionState(next: ConnectionState)
      modifies this`state
      ensures state == next
    {
      if state == next {
        return;
      }
      state := next;
    }

    /** One iteration of _collection_loop; waited is the time slept before the retry or the reconnect. */
    method CollectOnce(o: Outcome, base: real) returns (waited: real)
      modifies this
      ensures View() == Iterate(old(View()), o)
      ensures waited == WaitIn(old(View()), o, base)
    {
      waited := 0.0;
      if state == Degraded {
        degradedRetries := degradedRetries + 1;
        waited := RetryInterval(base, degradedRetries);
        if o == Success {
          consecutiveFailures := 0;
          reconnectDelay := 1.0;
          degradedRetries := 0;
          TransitionState(Connected);
        }
        return;
      }
      match o {
        case Success =>
          consecutiveFailures := 0;
          reconnectDelay := 1.0;
          if state != Connected {
            TransitionState(Connected);
          }
        case ClientError =>
          consecutiveFailures := consecutiveFailures + 1;
          if consecutiveFailures >= DEGRADED_THRESHOLD {
            TransitionState(Degraded);
            return;
          } else if consecutiveFailures >= UNSTABLE_THRESHOLD {
            TransitionState(Unstable);
          }
          waited := reconnectDelay;
          reconnectDelay := Min(reconnectDelay * 2.0, MAX_DELAY);
        case OtherError =>
      }
    }
  }
}
