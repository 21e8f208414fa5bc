/** Log events for alarm changes (_check_and_post_alarm_events of client.py), as the code is. A set bit is posted under
    its position as the code, which the table of codes (protocols/ieee2030_5_protocol.py:577-612) reads differently. The
    event for a cleared bit asks LogEventCode for a member it does not have (client.py:1262), so the first cleared bit
    raises, after the event counter was advanced and before the previous status is updated. */
module AlarmEvents {
  import opened Common
  import opened Alarms

  datatype LogEvent = LogEvent(id: nat, code: nat)

  datatype Monitor = Monitor(previous: Bits, counter: nat, events: seq<LogEvent>)

  const START := Monitor({}, 0, [])

  /** The loop over the bits from bit on: false if it raised. */
  function Scan(previous: Bits, current: Bits, bit: nat, counter: nat, events: seq<LogEvent>): (r: (bool, nat,
        seq<LogEvent>))
    decreases STANDARD_BITS - bit
  {
    if bit >= STANDARD_BITS then (true, counter, events)
    else if (bit in previous) == (bit in current) then Scan(previous, current, bit + 1, counter, events)
    else if bit in current then
      Scan(previous, current, bit + 1, counter + 1, events + [LogEvent(counter + 1, bit)])
    else (false, counter + 1, events)
  }

  function Check(m: Monitor, current: Bits): Monitor {
    if m.previous == current then m
    else
      var (completed, counter, events) := Scan(m.previous, current, 0, m.counter, m.events);
      Monitor(if completed then current else m.previous, counter, events)
  }

  predicate ClearsNothing(previous: Bits, current: Bits) {
    ClearsNothingFrom(previous, current, 0)
  }

  // ----- two readings of an event -----

  /** What an event says by the table of LogEventCode (protocols/ieee2030_5_protocol.py:577-612): code 2k reports that
      fault k occurred, code 2k + 1 that it was cleared. */
  function ByTable(code: nat, bits: Bits): Bits {
    if code % 2 == 0 then bits + {code / 2} else bits - {code / 2}
  }

  /** What the loop means by it: the code is the position of a bit that was set. */
  function ByPosition(code: nat, bits: Bits): Bits {
    bits + {code}
  }

  datatype Reading = Table | Position {
    function Apply(code: nat, bits: Bits): Bits {
      if this == Table then ByTable(code, bits) else ByPosition(code, bits)
    }
  }

  /** Replaying the events from zero. */
  function Replay(reading: Reading, events: seq<LogEvent>): Bits {
    if events == [] then {} else reading.Apply(events[|events| - 1].code, Replay(reading, events[..|events| - 1]))
  }

  ghost predicate SameStandardBits(a: Bits, b: Bits) {
    forall k :: 0 <= k < STANDARD_BITS ==> (k in a <==> k in b)
  }

  /** One event an id, from 1 on without gaps. */
  ghost predicate Consecutive(events: seq<LogEvent>, counter: nat) {
    counter == |events| && forall i :: 0 <= i < |events| ==> events[i].id == i + 1
  }

  /** The events tell the whole story of the previous status. */
  ghost predicate UpToDate(reading: Reading, m: Monitor) {
    SameStandardBits(Replay(reading, m.events), m.previous) && Consecutive(m.events, m.counter)
  }

  // ----- one call -----

  /** The bits reported by the loop from bit on: the newly set ones before the first cleared one. */
  function Reported(previous: Bits, current: Bits, bit: nat): (codes: seq<nat>)
    decreases STANDARD_BITS - bit
  {
    if bit >= STANDARD_BITS then []
    else if (bit in previous) == (bit in current) then Reported(previous, current, bit + 1)
    else if bit in current then [bit] + Reported(previous, current, bit + 1)
    else []
  }

  predicate ClearsNothingFrom(previous: Bits, current: Bits, bit: nat) {
    forall k :: bit <= k < STANDARD_BITS && k in previous ==> k in current
  }

  /** Events for the codes, with the ids after counter. */
  function Numbered(codes: seq<nat>, counter: nat): (events: seq<LogEvent>)
    ensures |events| == |codes|
    ensures forall i :: 0 <= i < |codes| ==> events[i] == LogEvent(counter + 1 + i, codes[i])
  {
    seq(|codes|, i requires 0 <= i < |codes| => LogEvent(counter + 1 + i, codes[i]))
  }

  lemma NumberedCons(code: nat, rest: seq<nat>, counter: nat, events: seq<LogEvent>)
    ensures events + Numbered([code] + rest, counter) ==
      events + [LogEvent(counter + 1, code)] + Numbered(rest, counter + 1)
  {
  }

  /** The loop reports these bits under consecutive ids, and completes exactly when no bit is cleared; raising costs
      one more id. */
  lemma {:induction false} ScanOutcome(previous: Bits, current: Bits, bit: nat, counter: nat, events: seq<LogEvent>)
    ensures var codes := Reported(previous, current, bit);
      var completed := ClearsNothingFrom(previous, current, bit);
      Scan(previous, current, bit, counter, events) ==
        (completed, counter + |codes| + (if completed then 0 else 1), events + Numbered(codes, counter))
    decreases STANDARD_BITS - bit
  {
    hide Numbered;
    var codes := Reported(previous, current, bit);
    if bit >= STANDARD_BITS {
      assert events + Numbered(codes, counter) == events;
    } else if (bit in previous) == (bit in current) {
      ScanOutcome(previous, current, bit + 1, counter, events);
      assert ClearsNothingFrom(previous, current, bit) <==> ClearsNothingFrom(previous, current, bit + 1);
    } else if bit in current {
      assert ClearsNothingFrom(previous, current, bit) <==> ClearsNothingFrom(previous, current, bit + 1);
      var e := LogEvent(counter + 1, bit);
      ScanOutcome(previous, current, bit + 1, counter + 1, events + [e]);
      var rest := Reported(previous, current, bit + 1);
      NumberedCons(bit, rest, counter, events);
    } else {
      assert codes == [];
      assert events + Numbered(codes, counter) == events;
    }
  }

  ghost predicate Ascending(codes: seq<nat>) {
    forall i, j :: 0 <= i < j < |codes| ==> codes[i] < codes[j]
  }

  /** Only newly set bits are reported, each once and in order; all of them if nothing is cleared. */
  lemma {:induction false} ReportedBits(previous: Bits, current: Bits, bit: nat)
    ensures Ascending(Reported(previous, current, bit))
    ensures forall k :: k in Reported(previous, current, bit) ==>
      bit <= k < STANDARD_BITS && k in current && k !in previous
    ensures ClearsNothingFrom(previous, current, bit) ==>
      forall k :: bit <= k < STANDARD_BITS && k in current && k !in previous ==> k in Reported(previous, current, bit)
    decreases STANDARD_BITS - bit
  {
    if bit < STANDARD_BITS {
      ReportedBits(previous, current, bit + 1);
      var rest := Reported(previous, current, bit + 1);
      if bit in current && bit !in previous {
        assert Reported(previous, current, bit) == [bit] + rest;
        forall i | 0 <= i < |rest| ensures bit < rest[i] {
          assert rest[i] in rest;
        }
      }
    }
  }

  // ----- the codes read as positions -----

  lemma {:induction false} ReplayNumbered(events: seq<LogEvent>, codes: seq<nat>, counter: nat)
    ensures Replay(Position, events + Numbered(codes, counter)) == Replay(Position, events) + (set c | c in codes)
  {
    if codes == [] {
      assert events + Numbered(codes, counter) == events;
    } else {
      var front, last := codes[..|codes| - 1], codes[|codes| - 1];
      var all := events + Numbered(codes, counter);
      assert all[..|all| - 1] == events + Numbered(front, counter);
      ReplayNumbered(events, front, counter);
      assert codes == front + [last];
    }
  }

  /** A status that clears no standard bit is fully reported to a reader of positions: one event for each newly set
      bit, in order, with the next ids, after which replaying all events gives the current status. */
  lemma CheckReportsNewBits(m: Monitor, current: Bits)
    requires UpToDate(Position, m) && ClearsNothing(m.previous, current)
    ensures UpToDate(Position, Check(m, current)) && SameStandardBits(Check(m, current).previous, current)
    ensures SameStandardBits(Replay(Position, Check(m, current).events), current)
  {
    ScanOutcome(m.previous, current, 0, m.counter, m.events);
    ReportedBits(m.previous, current, 0);
    ReplayNumbered(m.events, Reported(m.previous, current, 0), m.counter);
  }

  /** A status that clears a standard bit is not: the call raises, the events still report the cleared bit as set, an
      id is lost, and the previous status stays. */
  lemma CheckLosesClearedBits(m: Monitor, current: Bits)
    requires UpToDate(Position, m) && !ClearsNothing(m.previous, current)
    ensures var d := Check(m, current);
      !SameStandardBits(Replay(Position, d.events), current) && d.previous == m.previous && d.counter > |d.events|
  {
    ScanOutcome(m.previous, current, 0, m.counter, m.events);
    ReplayNumbered(m.events, Reported(m.previous, current, 0), m.counter);
    var k :| 0 <= k < STANDARD_BITS && k in m.previous && k !in current;
    assert k in Replay(Position, m.events);
  }

  /** Since the previous status stays, the same status reports the same newly set bits again at every further call:
      the events of a bit do not alternate. */
  lemma StuckStatusRepeatsEvents(m: Monitor, current: Bits)
    requires !ClearsNothing(m.previous, current)
    ensures var codes := Reported(m.previous, current, 0); var d := Check(m, current);
      && d.events == m.events + Numbered(codes, m.counter)
      && Check(d, current).events == d.events + Numbered(codes, d.counter)
      && Check(d, current).previous == d.previous == m.previous
  {
    ScanOutcome(m.previous, current, 0, m.counter, m.events);
    var d := Check(m, current);
    ScanOutcome(d.previous, current, 0, d.counter, d.events);
  }

  // ----- runs -----

  /** After every status of the run, replaying the events from zero gives that status and the ids have no gap. */
  ghost predicate Faithful(reading: Reading, m: Monitor, run: seq<Bits>)
    decreases |run|
  {
    run != [] ==>
      var d := Check(m, run[0]);
      SameStandardBits(Replay(reading, d.events), run[0]) && Consecutive(d.events, d.counter) &&
        Faithful(reading, d, run[1..])
  }

  ghost predicate NeverClears(previous: Bits, run: seq<Bits>)
    decreases |run|
  {
    run != [] ==> ClearsNothing(previous, run[0]) && NeverClears(run[0], run[1..])
  }

  /** Read by position, exactly the runs in which no standard alarm bit is ever cleared are reported faithfully. */
  lemma {:induction false} FaithfulIffNeverClears(m: Monitor, run: seq<Bits>)
    requires UpToDate(Position, m)
    ensures Faithful(Position, m, run) <==> NeverClears(m.previous, run)
    decreases |run|
  {
    if run != [] {
      if ClearsNothing(m.previous, run[0]) {
        CheckReportsNewBits(m, run[0]);
        var d := Check(m, run[0]);
        FaithfulIffNeverClears(d, run[1..]);
        SamePreviousSameVerdict(d.previous, run[0], run[1..]);
      } else {
        CheckLosesClearedBits(m, run[0]);
      }
    }
  }

  lemma SamePreviousSameVerdict(a: Bits, b: Bits, run: seq<Bits>)
    requires SameStandardBits(a, b)
    ensures NeverClears(a, run) <==> NeverClears(b, run)
  {
  }

  // ----- the codes read by the table -----

  /** Of the standard bits, at most bit 0 is set. */
  predicate OnlyOverCurrent(bits: Bits) {
    forall k :: 1 <= k < STANDARD_BITS ==> k !in bits
  }

  ghost predicate NeverMore(run: seq<Bits>) {
    forall i :: 0 <= i < |run| ==> OnlyOverCurrent(run[i])
  }

  /** A code above 2k cannot report fault k, nor can a smaller one. */
  lemma {:induction false} ReplayByTable(events: seq<LogEvent>, codes: seq<nat>, counter: nat, k: nat)
    requires k !in Replay(Table, events) && 2 * k !in codes
    ensures k !in Replay(Table, events + Numbered(codes, counter))
  {
    if codes == [] {
      assert events + Numbered(codes, counter) == events;
    } else {
      var front := codes[..|codes| - 1];
      var all := events + Numbered(codes, counter);
      assert all[..|all| - 1] == events + Numbered(front, counter);
      ReplayByTable(events, front, counter, k);
      assert all[|all| - 1].code == codes[|codes| - 1];
    }
  }

  /** The highest standard bit that is set. */
  lemma HighestBit(bits: Bits, k: nat) returns (top: nat)
    requires 1 <= k < STANDARD_BITS && k in bits
    ensures k <= top < STANDARD_BITS && top in bits
    ensures forall l :: top < l < STANDARD_BITS ==> l !in bits
  {
    top := STANDARD_BITS - 1;
    while top !in bits
      invariant k <= top < STANDARD_BITS
      invariant forall l :: top < l < STANDARD_BITS ==> l !in bits
      decreases top
    {
      top := top - 1;
    }
  }

  /** A status with a standard bit other than 0 is misreported: the code of its highest bit names no such fault. */
  lemma OtherBitsAreLost(m: Monitor, current: Bits)
    requires UpToDate(Table, m) && OnlyOverCurrent(m.previous) && !OnlyOverCurrent(current)
    ensures !SameStandardBits(Replay(Table, Check(m, current).events), current)
  {
    var k :| 1 <= k < STANDARD_BITS && k in current;
    var top := HighestBit(current, k);
    ScanOutcome(m.previous, current, 0, m.counter, m.events);
    ReportedBits(m.previous, current, 0);
    ReplayByTable(m.events, Reported(m.previous, current, 0), m.counter, top);
  }

  /** What a check of such a status does. */
  lemma OverCurrentCheck(m: Monitor, current: Bits)
    requires OnlyOverCurrent(m.previous) && OnlyOverCurrent(current)
    ensures var d := Check(m, current);
      if 0 in current && 0 !in m.previous then
        d == Monitor(current, m.counter + 1, m.events + [LogEvent(m.counter + 1, 0)])
      else
        && d.events == m.events
        && (ClearsNothing(m.previous, current) ==> d.counter == m.counter && d.previous == current)
  {
    hide Scan, Reported;
    ScanOutcome(m.previous, current, 0, m.counter, m.events);
    OverCurrentReported(m.previous, current);
    assert m.events + Numbered([], m.counter) == m.events;
    assert Numbered([0], m.counter) == [LogEvent(m.counter + 1, 0)];
  }

  /** A status of bit 0 alone, or of no standard bit, is reported exactly if it clears nothing. */
  lemma OverCurrentByTable(m: Monitor, current: Bits)
    requires UpToDate(Table, m) && OnlyOverCurrent(m.previous) && OnlyOverCurrent(current)
    ensures var d := Check(m, current);
      if ClearsNothing(m.previous, current)
      then UpToDate(Table, d) && SameStandardBits(d.previous, current)
      else !SameStandardBits(Replay(Table, d.events), current)
  {
    hide Check, Replay;
    OverCurrentCheck(m, current);
    FaultReported(m.events, m.counter + 1);
  }

  lemma FaultReported(events: seq<LogEvent>, id: nat)
    ensures Replay(Table, events + [LogEvent(id, 0)]) == Replay(Table, events) + {0}
  {
    assert (events + [LogEvent(id, 0)])[..|events|] == events;
  }

  lemma OverCurrentReported(previous: Bits, current: Bits)
    requires OnlyOverCurrent(previous) && OnlyOverCurrent(current)
    ensures Reported(previous, current, 0) == if 0 in current && 0 !in previous then [0] else []
  {
    hide Reported;
    ReportedBits(previous, current, 0);
    var codes := Reported(previous, current, 0);
    assert codes == [] || codes[0] in codes;
    if 0 in current && 0 !in previous {
      OneBit({0}, 0, codes);
    }
  }

  /** Read by the table, exactly the runs in which no standard bit is ever cleared and none but bit 0 is ever set are
      reported faithfully. */
  lemma {:induction false} FaithfulByTable(m: Monitor, run: seq<Bits>)
    requires UpToDate(Table, m) && OnlyOverCurrent(m.previous)
    ensures Faithful(Table, m, run) <==> NeverClears(m.previous, run) && NeverMore(run)
    decreases |run|
  {
    if run != [] {
      assert NeverMore(run) <==> OnlyOverCurrent(run[0]) && NeverMore(run[1..]);
      if !OnlyOverCurrent(run[0]) {
        OtherBitsAreLost(m, run[0]);
      } else {
        OverCurrentByTable(m, run[0]);
        if ClearsNothing(m.previous, run[0]) {
          var d := Check(m, run[0]);
          FaithfulByTable(d, run[1..]);
          SamePreviousSameVerdict(d.previous, run[0], run[1..]);
        }
      }
    }
  }

  // ----- runs that are misreported -----

  const OVER_VOLTAGE_BIT := 1

  /** The first status sets bit 1, over-voltage. The event carries code 1, which the table reads as the end of an
      over-current fault. */
  lemma OverVoltageReadsAsCleared()
    ensures Check(START, {OVER_VOLTAGE_BIT}).events == [LogEvent(1, 1)]
    ensures Replay(Table, Check(START, {OVER_VOLTAGE_BIT}).events) == {}
    ensures !Faithful(Table, START, [{OVER_VOLTAGE_BIT}]) && Faithful(Position, START, [{OVER_VOLTAGE_BIT}])
  {
    hide Faithful, Check;
    OverVoltageEvent();
    FaithfulByTable(START, [{OVER_VOLTAGE_BIT}]);
    FaithfulIffNeverClears(START, [{OVER_VOLTAGE_BIT}]);
    assert !OnlyOverCurrent([{OVER_VOLTAGE_BIT}][0]);
    assert NeverClears({}, [{OVER_VOLTAGE_BIT}]);
  }

  lemma OverVoltageEvent()
    ensures Check(START, {OVER_VOLTAGE_BIT}).events == [LogEvent(1, 1)]
    ensures Replay(Table, Check(START, {OVER_VOLTAGE_BIT}).events) == {}
  {
    hide Scan, Reported;
    ScanOutcome({}, {1}, 0, 0, []);
    ReportedBits({}, {1}, 0);
    OneBit({1}, 1, Reported({}, {1}, 0));
    assert Numbered([1], 0) == [LogEvent(1, 1)];
    assert [LogEvent(1, 1)][..0] == [];
  }

  lemma OneBit(bits: Bits, b: nat, codes: seq<nat>)
    requires bits == {b} && Ascending(codes) && b in codes && forall c :: c in codes ==> c in bits
    ensures codes == [b]
  {
    var last := |codes| - 1;
    assert codes[0] in codes && codes[last] in codes;
    assert last == 0;
  }

  /** An over-current fault that ends is misreported by either reading. */
  lemma EndOfFaultIsLost()
    ensures !Faithful(Table, START, [{0}, {}]) && !Faithful(Position, START, [{0}, {}])
  {
    var run: seq<Bits> := [{0}, {}];
    assert !ClearsNothing({0}, {});
    assert run[1..][0] == {};
    assert !NeverClears({0}, run[1..]);
    FaithfulByTable(START, run);
    FaithfulIffNeverClears(START, run);
  }

  // ----- the object -----

  class AlarmMonitor {
    var previousAlarmStatus: Bits
    var logEventIdCounter: nat
    /** The events handed to the server. */
    var events: seq<LogEvent>

    constructor ()
      ensures View() == START
    {
      previousAlarmStatus, logEventIdCounter, events := {}, 0, [];
    }

    function View(): Monitor
      reads this
    {
      Monitor(previousAlarmStatus, logEventIdCounter, events)
    }

    /** _check_and_post_alarm_events; false stands for the exception. */
    method CheckAndPost(current: Bits) returns (completed: bool)
      modifies this
      ensures View() == Check(old(View()), current)
      ensures completed == ClearsNothing(old(previousAlarmStatus), current)
    {
      ghost var m := View();
      ScanOutcome(m.previous, current, 0, m.counter, m.events);
      if previousAlarmStatus == current {
        return true;
      }
      for bit := 0 to STANDARD_BITS
        invariant previousAlarmStatus == m.previous
        invariant Scan(m.previous, current, 0, m.counter, m.events) ==
          Scan(m.previous, current, bit, logEventIdCounter, events)
      {
        if (bit in previousAlarmStatus) == (bit in current) {
          continue;
        }
        logEventIdCounter := logEventIdCounter + 1;
        if bit in current {
          events := events + [LogEvent(logEventIdCounter, bit)];
        } else {
          return false;
        }
      }
      previousAlarmStatus := current;
      return true;
    }
  }
}
