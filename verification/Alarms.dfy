/** From raw Modbus error bits to IEEE 2030.5 alarm bits (ders/adapter.py). A register is the set of the positions of
    its set bits, so | is union and a test of one bit is membership. */
module Alarms {
  import opened Common

  type Bits = set<nat>

  // ----- the mapping -----

  /** If the bit is set in the register, the alarm bits are raised. */
  datatype Row = Row(bit: nat, alarm: Bits)

  const OVER_CURRENT := 0
  const OVER_VOLTAGE := 1
  const UNDER_VOLTAGE := 2
  const CURRENT_IMBALANCE := 6
  const EMERGENCY_LOCAL := 7
  const EMERGENCY_REMOTE := 8
  const LOW_POWER_INPUT := 9
  const STANDARD_BITS := 11

  const ERROR_ROWS := [
    Row(0, {EMERGENCY_LOCAL}), Row(1, {EMERGENCY_LOCAL}), Row(2, {EMERGENCY_LOCAL}), Row(3, {EMERGENCY_LOCAL}),
    Row(4, {OVER_VOLTAGE}), Row(5, {EMERGENCY_LOCAL}), Row(6, {OVER_CURRENT}), Row(7, {EMERGENCY_REMOTE}),
    Row(10, {CURRENT_IMBALANCE})]

  const RACK_ROWS := [
    Row(0, {OVER_VOLTAGE}), Row(1, {UNDER_VOLTAGE}), Row(2, {EMERGENCY_LOCAL}), Row(3, {EMERGENCY_LOCAL}),
    Row(4, {OVER_CURRENT}), Row(5, {OVER_CURRENT}), Row(6, {OVER_VOLTAGE}), Row(7, {UNDER_VOLTAGE}),
    Row(8, {OVER_VOLTAGE, EMERGENCY_LOCAL}), Row(9, {UNDER_VOLTAGE, EMERGENCY_LOCAL}),
    Row(10, {EMERGENCY_LOCAL}), Row(11, {EMERGENCY_LOCAL}),
    Row(12, {OVER_CURRENT, EMERGENCY_LOCAL}), Row(13, {OVER_CURRENT, EMERGENCY_LOCAL})]

  const LECU_ROWS := [
    Row(0, {EMERGENCY_REMOTE}), Row(1, {EMERGENCY_LOCAL}), Row(2, {EMERGENCY_LOCAL}), Row(3, {LOW_POWER_INPUT}),
    Row(4, {CURRENT_IMBALANCE}), Row(5, {EMERGENCY_LOCAL})]

  function MapFlags(rows: seq<Row>, flags: Bits): Bits {
    if rows == [] then {}
    else (if rows[0].bit in flags then rows[0].alarm else {}) + MapFlags(rows[1..], flags)
  }

  /** modbus_error_to_alarm_status */
  function ToAlarm(error: Bits, rack: Bits, lecu: Bits): Bits {
    MapFlags(ERROR_ROWS, error) + MapFlags(RACK_ROWS, rack) + MapFlags(LECU_ROWS, lecu)
  }

  lemma {:induction false} MapDistributes(rows: seq<Row>, a: Bits, b: Bits)
    ensures MapFlags(rows, a + b) == MapFlags(rows, a) + MapFlags(rows, b)
  {
    if rows != [] {
      MapDistributes(rows[1..], a, b);
    }
  }

  /** Mapping distributes over OR, in all three registers at once. */
  lemma ToAlarmDistributes(e: Bits, r: Bits, l: Bits, e': Bits, r': Bits, l': Bits)
    ensures ToAlarm(e + e', r + r', l + l') == ToAlarm(e, r, l) + ToAlarm(e', r', l')
  {
    hide MapFlags;
    MapDistributes(ERROR_ROWS, e, e');
    MapDistributes(RACK_ROWS, r, r');
    MapDistributes(LECU_ROWS, l, l');
  }

  lemma {:induction false} OnlyMapped(rows: seq<Row>, flags: Bits, b: nat)
    requires b in MapFlags(rows, flags)
    ensures exists i :: 0 <= i < |rows| && rows[i].bit in flags && b in rows[i].alarm
  {
    if rows[0].bit in flags && b in rows[0].alarm {
    } else {
      OnlyMapped(rows[1..], flags, b);
    }
  }

  /** The bits of the register that raise alarm b. */
  ghost function Causes(rows: seq<Row>, b: nat): Bits {
    set i | 0 <= i < |rows| && b in rows[i].alarm :: rows[i].bit
  }

  lemma {:induction false} RaisedByCauses(rows: seq<Row>, flags: Bits, b: nat)
    ensures b in MapFlags(rows, flags) <==> Causes(rows, b) * flags != {}
  {
    if b in MapFlags(rows, flags) {
      OnlyMapped(rows, flags, b);
      var i :| 0 <= i < |rows| && rows[i].bit in flags && b in rows[i].alarm;
      assert rows[i].bit in Causes(rows, b) * flags;
    }
    if x :| x in Causes(rows, b) * flags {
      var i :| 0 <= i < |rows| && b in rows[i].alarm && rows[i].bit == x;
      AllMapped(rows, flags, i);
    }
  }

  lemma {:induction false} AllMapped(rows: seq<Row>, flags: Bits, i: nat)
    requires i < |rows| && rows[i].bit in flags
    ensures rows[i].alarm <= MapFlags(rows, flags)
  {
    if i > 0 {
      AllMapped(rows[1..], flags, i - 1);
    }
  }

  /** Which bits of the three registers raise which alarm. */
  function CausesOf(b: nat): (Bits, Bits, Bits) {
    match b
    case 0 => ({6}, {4, 5, 12, 13}, {})
    case 1 => ({4}, {0, 6, 8}, {})
    case 2 => ({}, {1, 7, 9}, {})
    case 6 => ({10}, {}, {4})
    case 7 => ({0, 1, 2, 3, 5}, {2, 3, 8, 9, 10, 11, 12, 13}, {1, 2, 5})
    case 8 => ({7}, {}, {0})
    case 9 => ({}, {}, {3})
    case _ => ({}, {}, {})
  }

  lemma ErrorCauses(b: nat)
    ensures Causes(ERROR_ROWS, b) == CausesOf(b).0
  {
    var t := ERROR_ROWS;
    assert [t[0].bit, t[1].bit, t[2].bit, t[3].bit, t[4].bit, t[5].bit, t[6].bit, t[7].bit, t[8].bit]
      == [0, 1, 2, 3, 4, 5, 6, 7, 10];
  }

  lemma RackCauses(b: nat)
    ensures Causes(RACK_ROWS, b) == CausesOf(b).1
  {
    var t := RACK_ROWS;
    assert [t[0].bit, t[1].bit, t[2].bit, t[3].bit, t[4].bit, t[5].bit, t[6].bit] == [0, 1, 2, 3, 4, 5, 6];
    assert [t[7].bit, t[8].bit, t[9].bit, t[10].bit, t[11].bit, t[12].bit, t[13].bit] == [7, 8, 9, 10, 11, 12, 13];
  }

  lemma LecuCauses(b: nat)
    ensures Causes(LECU_ROWS, b) == CausesOf(b).2
  {
    var t := LECU_ROWS;
    assert [t[0].bit, t[1].bit, t[2].bit, t[3].bit, t[4].bit, t[5].bit] == [0, 1, 2, 3, 4, 5];
  }

  /** An alarm is raised exactly if one of its causes is set. */
  lemma AlarmsByCause(e: Bits, r: Bits, l: Bits, b: nat)
    ensures b in ToAlarm(e, r, l) <==>
      CausesOf(b).0 * e != {} || CausesOf(b).1 * r != {} || CausesOf(b).2 * l != {}
  {
    hide MapFlags, Causes, CausesOf;
    RaisedByCauses(ERROR_ROWS, e, b);
    RaisedByCauses(RACK_ROWS, r, b);
    RaisedByCauses(LECU_ROWS, l, b);
    ErrorCauses(b);
    RackCauses(b);
    LecuCauses(b);
  }

  /** The reserved bits, from 11 up, are never set. */
  lemma ReservedBitsStayClear(e: Bits, r: Bits, l: Bits, b: nat)
    requires b in ToAlarm(e, r, l)
    ensures b < 11
  {
    hide MapFlags;
    if b in MapFlags(ERROR_ROWS, e) {
      OnlyMapped(ERROR_ROWS, e, b);
    } else if b in MapFlags(RACK_ROWS, r) {
      OnlyMapped(RACK_ROWS, r, b);
    } else {
      OnlyMapped(LECU_ROWS, l, b);
    }
  }

  // ----- racks -----

  function Aggregate(racks: seq<Bits>): Bits {
    if racks == [] then {} else Aggregate(racks[..|racks| - 1]) + ToAlarm(racks[|racks| - 1], {}, {})
  }

  function OrAll(racks: seq<Bits>): Bits {
    if racks == [] then {} else OrAll(racks[..|racks| - 1]) + racks[|racks| - 1]
  }

  lemma {:induction false} NoFlagsNoAlarm(rows: seq<Row>)
    ensures MapFlags(rows, {}) == {}
  {
    if rows != [] {
      NoFlagsNoAlarm(rows[1..]);
    }
  }

  /** Aggregating the racks is mapping the OR of their raw bits. */
  lemma {:induction false} AggregateMapsOr(racks: seq<Bits>)
    ensures Aggregate(racks) == ToAlarm(OrAll(racks), {}, {})
  {
    hide MapFlags;
    if racks == [] {
      NoFlagsNoAlarm(ERROR_ROWS);
      NoFlagsNoAlarm(RACK_ROWS);
      NoFlagsNoAlarm(LECU_ROWS);
    } else {
      var front, last := racks[..|racks| - 1], racks[|racks| - 1];
      AggregateMapsOr(front);
      ToAlarmDistributes(OrAll(front), {}, {}, last, {}, {});
      var none: Bits := {};
      assert none + none == none;
    }
  }

  lemma {:induction false} InOrAll(racks: seq<Bits>, b: nat)
    ensures b in OrAll(racks) <==> exists i :: 0 <= i < |racks| && b in racks[i]
  {
    if racks != [] {
      var front := racks[..|racks| - 1];
      InOrAll(front, b);
      if b in OrAll(front) {
        var i :| 0 <= i < |front| && b in front[i];
        assert b in racks[i];
      }
    }
  }

  /** The order and the repetition of racks do not matter. */
  lemma RackOrderDoesNotMatter(a: seq<Bits>, b: seq<Bits>)
    requires forall r :: r in a <==> r in b
    ensures Aggregate(a) == Aggregate(b)
  {
    forall x ensures x in OrAll(a) <==> x in OrAll(b) {
      InOrAll(a, x);
      InOrAll(b, x);
      if x in OrAll(a) {
        var i :| 0 <= i < |a| && x in a[i];
        assert a[i] in b;
      }
      if x in OrAll(b) {
        var i :| 0 <= i < |b| && x in b[i];
        assert b[i] in a;
      }
    }
    assert OrAll(a) == OrAll(b);
    AggregateMapsOr(a);
    AggregateMapsOr(b);
  }

  // ----- the loops of the source -----

  method MapRows(rows: seq<Row>, flags: Bits, start: Bits) returns (alarm: Bits)
    ensures alarm == start + MapFlags(rows, flags)
  {
    alarm := start;
    for i := 0 to |rows|
      invariant alarm + MapFlags(rows[i..], flags) == start + MapFlags(rows, flags)
    {
      assert rows[i..][1..] == rows[i + 1..];
      if rows[i].bit in flags {
        alarm := alarm + rows[i].alarm;
      }
    }
  }

  method ModbusErrorToAlarmStatus(error: Bits, rack: Bits, lecu: Bits) returns (alarm: Bits)
    ensures alarm == ToAlarm(error, rack, lecu)
  {
    hide MapFlags;
    alarm := MapRows(ERROR_ROWS, error, {});
    alarm := MapRows(RACK_ROWS, rack, alarm);
    alarm := MapRows(LECU_ROWS, lecu, alarm);
  }

  /** _aggregate_alarm_status */
  method AggregateAlarmStatus(racks: seq<Bits>) returns (combined: Bits)
    ensures combined == ToAlarm(OrAll(racks), {}, {})
  {
    hide ToAlarm;
    combined := {};
    for i := 0 to |racks|
      invariant combined == Aggregate(racks[..i])
    {
      var alarm := ModbusErrorToAlarmStatus(racks[i], {}, {});
      combined := combined + alarm;
      assert racks[..i + 1][..i] == racks[..i];
    }
    assert racks[..|racks|] == racks;
    AggregateMapsOr(racks);
  }
}
