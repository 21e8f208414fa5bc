/** The crash-safe file of cycle data (cycle_storage.py): a 46-byte record with a checksum, written to a temporary
    file, renamed over the primary file and then copied to a backup. */
module CycleStorage {
  import opened Common

  type Byte = x: int | 0 <= x < 256
  type Bytes = seq<Byte>

  // ----- little-endian numbers -----

  function Pow256(n: nat): (p: nat)
    ensures p > 0
  {
    if n == 0 then 1 else 256 * Pow256(n - 1)
  }

  function Pack(n: nat, x: nat): (b: Bytes)
    ensures |b| == n
  {
    if n == 0 then [] else [x % 256] + Pack(n - 1, x / 256)
  }

  function Unpack(b: Bytes): (x: nat)
    ensures x < Pow256(|b|)
  {
    if b == [] then 0 else b[0] + 256 * Unpack(b[1..])
  }

  lemma {:induction false} UnpackPack(n: nat, x: nat)
    requires x < Pow256(n)
    ensures Unpack(Pack(n, x)) == x
  {
    if n > 0 {
      UnpackPack(n - 1, x / 256);
    }
  }

  // ----- records -----

  const TWO_32 := 0x1_0000_0000
  const TWO_63 := 0x8000_0000_0000_0000
  const TWO_64 := 0x1_0000_0000_0000_0000

  /** A float64, given by its bits. */
  type Float64 = x: int | 0 <= x < TWO_64

  predicate IsNan(f: Float64) {
    f % TWO_63 > 0x7FF0_0000_0000_0000
  }

  const NAN: Float64 := 0x7FF8_0000_0000_0000

  /** time is the Unix time of the last update, with a fraction of a second. */
  datatype Record = Record(cycles: nat, charge: Float64, discharge: Float64, lastSoc: Option<Float64>, time: real)

  function Seconds(time: real): int {
    if time >= 0.0 then time.Floor else -((-time).Floor)
  }

  /** The Unix times a datetime can hold: years 1 to 9999. */
  predicate IsDate(seconds: int) {
    -62135596800 <= seconds < 253402300800
  }

  /** Any other record makes struct.pack fail, and save returns False. */
  predicate Packable(r: Record) {
    r.cycles < TWO_32 && IsDate(Seconds(r.time))
  }

  /** What a file keeps of a record: whole seconds, and no last SOC where there was a NaN. */
  function Stored(r: Record): Record {
    r.(time := Seconds(r.time) as real, lastSoc := if r.lastSoc.Some? &&
      IsNan(r.lastSoc.value) then None else r.lastSoc)
  }

  // ----- the 46-byte file -----

  const MAGIC: Bytes := [67, 89, 67, 76]
  const VERSION := 1
  const RECORD_SIZE := 46

  /** crc32 & 0xFFFFFFFF, for whatever zlib computes. */
  function Checksum(zlib: Bytes -> int, payload: Bytes): nat {
    zlib(payload) % TWO_32
  }

  function SocBits(r: Record): Float64 {
    if r.lastSoc.Some? then r.lastSoc.value else NAN
  }

  function Payload(r: Record): (b: Bytes)
    requires Packable(r)
    ensures |b| == 42
  {
    MAGIC + Pack(2, VERSION) + Pack(4, r.cycles) + Pack(8, r.charge) + Pack(8, r.discharge) + Pack(8, SocBits(r))
    + Pack(8, Seconds(r.time) % TWO_64)
  }

  function Encode(zlib: Bytes -> int, r: Record): (b: Bytes)
    requires Packable(r)
    ensures |b| == RECORD_SIZE
  {
    Payload(r) + Pack(4, Checksum(zlib, Payload(r)))
  }

  function Signed64(x: nat): int {
    if x >= TWO_63 then x - TWO_64 else x
  }

  /** The fields of a record of the right size, unchecked. */
  function Fields(b: Bytes): Record
    requires |b| == RECORD_SIZE
  {
    assert Pow256(8) == TWO_64;
    var soc: Float64 := Unpack(b[26..34]);
    Record(Unpack(b[6..10]), Unpack(b[10..18]), Unpack(b[18..26]), if IsNan(soc) then None else Some(soc),
           Signed64(Unpack(b[34..42])) as real)
  }

  /** The record in a file, or None if size, magic number, version or checksum is wrong, or the time is no date. */
  function Decode(zlib: Bytes -> int, b: Bytes): Option<Record> {
    if |b| != RECORD_SIZE then None
    else if b[..4] != MAGIC || Unpack(b[4..6]) != VERSION || Unpack(b[42..]) != Checksum(zlib, b[..42]) then None
    else if !IsDate(Signed64(Unpack(b[34..42]))) then None
    else Some(Fields(b))
  }

  lemma PayloadLayout(r: Record)
    requires Packable(r)
    ensures var p := Payload(r);
      && p[..4] == MAGIC && p[4..6] == Pack(2, VERSION) && p[6..10] == Pack(4, r.cycles)
      && p[10..18] == Pack(8, r.charge) && p[18..26] == Pack(8, r.discharge) && p[26..34] == Pack(8, SocBits(r))
      && p[34..42] == Pack(8, Seconds(r.time) % TWO_64)
  {
    hide Pack;
  }

  lemma Slice(p: Bytes, q: Bytes, i: nat, j: nat)
    requires i <= j <= |p|
    ensures (p + q)[i..j] == p[i..j]
  {
  }

  lemma TimeRoundTrip(seconds: int)
    requires IsDate(seconds)
    ensures 0 <= seconds % TWO_64 < TWO_64 && Signed64(seconds % TWO_64) == seconds
  {
    if seconds < 0 {
      assert seconds % TWO_64 == (seconds + TWO_64) % TWO_64 == seconds + TWO_64;
    }
  }

  lemma Powers()
    ensures Pow256(2) == 65536 && Pow256(4) == TWO_32 && Pow256(8) == TWO_64
  {
  }

  lemma FieldsRoundTrip(r: Record)
    requires Packable(r)
    ensures Unpack(Pack(2, VERSION)) == VERSION
    ensures Unpack(Pack(4, r.cycles)) == r.cycles
    ensures Unpack(Pack(8, r.charge)) == r.charge && Unpack(Pack(8, r.discharge)) == r.discharge
    ensures Unpack(Pack(8, SocBits(r))) == SocBits(r)
    ensures Signed64(Unpack(Pack(8, Seconds(r.time) % TWO_64))) == Seconds(r.time)
  {
    Powers();
    TimeRoundTrip(Seconds(r.time));
    hide Pack, Unpack, Pow256, Signed64, IsDate, Seconds;
    UnpackPack(2, VERSION);
    UnpackPack(4, r.cycles);
    UnpackPack(8, r.charge);
    UnpackPack(8, r.discharge);
    UnpackPack(8, SocBits(r));
    UnpackPack(8, Seconds(r.time) % TWO_64);
  }

  /** Loading what was saved gives the record back, up to whole seconds and NaN for "not set". */
  lemma DecodeEncode(zlib: Bytes -> int, r: Record)
    requires Packable(r)
    ensures Decode(zlib, Encode(zlib, r)) == Some(Stored(r))
  {
    Powers();
    hide Pack, Unpack, Pow256, Payload;
    var p := Payload(r);
    var check := Pack(4, Checksum(zlib, p));
    var b := Encode(zlib, r);
    assert b == p + check && b[42..] == check && b[..42] == p;
    PayloadLayout(r);
    FieldsRoundTrip(r);
    UnpackPack(4, Checksum(zlib, p));
    Slice(p, check, 0, 4);
    Slice(p, check, 4, 6);
    Slice(p, check, 6, 10);
    Slice(p, check, 10, 18);
    Slice(p, check, 18, 26);
    Slice(p, check, 26, 34);
    Slice(p, check, 34, 42);
  }

  // ----- the layout of the file -----

  /** Digit k of x in base 256, from the lowest. */
  function Digit(x: nat, k: nat): nat {
    if k == 0 then x % 256 else Digit(x / 256, k - 1)
  }

  ghost predicate LittleEndian(b: Bytes, x: nat) {
    forall k :: 0 <= k < |b| ==> b[k] == Digit(x, k)
  }

  lemma {:induction false} PackIsLittleEndian(n: nat, x: nat)
    ensures LittleEndian(Pack(n, x), x)
  {
    if n > 0 {
      PackIsLittleEndian(n - 1, x / 256);
    }
  }

  /** The file byte by byte: the letters CYCL, version 1, the cycle count, the two accumulators, the last SOC, the time
      in seconds, and the checksum of all of that, every number little-endian. */
  lemma FileLayout(zlib: Bytes -> int, r: Record)
    requires Packable(r)
    ensures var b := Encode(zlib, r);
      && |b| == 46
      && b[..4] == ['C' as int, 'Y' as int, 'C' as int, 'L' as int] && LittleEndian(b[4..6], 1)
      && LittleEndian(b[6..10], r.cycles)
      && LittleEndian(b[10..18], r.charge)
      && LittleEndian(b[18..26], r.discharge)
      && LittleEndian(b[26..34], SocBits(r))
      && LittleEndian(b[34..42], Seconds(r.time) % TWO_64)
      && LittleEndian(b[42..], zlib(b[..42]) % 0x1_0000_0000)
  {
    PayloadLayout(r);
    var p, check := Payload(r), Pack(4, Checksum(zlib, Payload(r)));
    hide Payload, Pack, LittleEndian, Digit;
    var b := Encode(zlib, r);
    assert b == p + check && b[..42] == p && b[42..] == check;
    Slice(p, check, 0, 4);
    Slice(p, check, 4, 6);
    Slice(p, check, 6, 10);
    Slice(p, check, 10, 18);
    Slice(p, check, 18, 26);
    Slice(p, check, 26, 34);
    Slice(p, check, 34, 42);
    PackIsLittleEndian(2, 1);
    PackIsLittleEndian(4, r.cycles);
    PackIsLittleEndian(8, r.charge);
    PackIsLittleEndian(8, r.discharge);
    PackIsLittleEndian(8, SocBits(r));
    PackIsLittleEndian(8, Seconds(r.time) % TWO_64);
    PackIsLittleEndian(4, Checksum(zlib, p));
  }

  lemma {:induction false} PackUnpack(b: Bytes)
    ensures Pack(|b|, Unpack(b)) == b
  {
    if b != [] {
      PackUnpack(b[1..]);
      assert (b[0] + 256 * Unpack(b[1..])) / 256 == Unpack(b[1..]);
    }
  }

  /** Damage to a saved file that is read all the same keeps its size and its identification, and, unless it is to the
      checksum alone, which is always noticed, hits data with the same checksum. */
  lemma DamageIsNoticed(zlib: Bytes -> int, r: Record, b: Bytes)
    requires Packable(r) && Decode(zlib, b).Some?
    ensures var saved := Encode(zlib, r);
      && |b| == |saved| && b[..6] == saved[..6]
      && (b[42..] == saved[42..] ==> zlib(b[..42]) % 0x1_0000_0000 == zlib(saved[..42]) % 0x1_0000_0000)
      && (b[..42] == saved[..42] ==> b == saved)
  {
    var saved := Encode(zlib, r);
    DecodeEncode(zlib, r);
    PackUnpack(b[4..6]);
    PackUnpack(saved[4..6]);
    PackUnpack(b[42..]);
    PackUnpack(saved[42..]);
    hide Pack, Unpack, Encode;
    assert b[..6] == b[..4] + b[4..6] && saved[..6] == saved[..4] + saved[4..6];
    assert b == b[..42] + b[42..] && saved == saved[..42] + saved[42..];
  }

  /** What is stored of a record: the time truncated to whole seconds, and no SOC exactly if there was none or its
      float64 has all exponent bits set and a fraction, which makes it a NaN. */
  lemma StoredExactly(r: Record)
    ensures var t := Stored(r);
      && (t.cycles, t.charge, t.discharge) == (r.cycles, r.charge, r.discharge)
      && t.time == t.time.Floor as real
      && (if r.time >= 0.0 then 0.0 <= t.time <= r.time < t.time + 1.0 else t.time - 1.0 < r.time <= t.time <= 0.0)
      && (t.lastSoc == None <==>
            r.lastSoc == None || (r.lastSoc.value / 0x10_0000_0000_0000 % 2048 == 2047
                                  && r.lastSoc.value % 0x10_0000_0000_0000 != 0))
      && (t.lastSoc.Some? ==> t.lastSoc == r.lastSoc)
  {
    if r.lastSoc.Some? {
      NanByBits(r.lastSoc.value);
    }
  }

  lemma NanByBits(f: Float64)
    ensures IsNan(f) <==> f / 0x10_0000_0000_0000 % 2048 == 2047 && f % 0x10_0000_0000_0000 != 0
  {
  }

  // ----- the three files -----

  datatype Files = Files(primary: Option<Bytes>, backup: Option<Bytes>, temp: Option<Bytes>)

  /** Where a save stops: power is lost or an I/O error is raised. A write that was cut short leaves any bytes. */
  datatype Stop = AtTemp(junk: Bytes) | BeforeRename | AfterRename | AtBackup(junk: Bytes) | Done

  predicate Commits(stop: Stop) {
    stop.AfterRename? || stop.AtBackup? || stop.Done?
  }

  function SaveFiles(zlib: Bytes -> int, f: Files, r: Record, stop: Stop): Files {
    if !Packable(r) then f
    else
      var b := Encode(zlib, r);
      match stop
      case AtTemp(junk) => f.(temp := Some(junk))
      case BeforeRename => f.(temp := Some(b))
      case AfterRename => f.(primary := Some(b), temp := None)
      case AtBackup(junk) => Files(Some(b), Some(junk), None)
      case Done => Files(Some(b), Some(b), None)
  }

  function LoadBackup(zlib: Bytes -> int, f: Files): Option<Record> {
    if f.backup.None? then None else Decode(zlib, f.backup.value)
  }

  function LoadFiles(zlib: Bytes -> int, f: Files): Option<Record> {
    if f.primary.None? then None
    else if Decode(zlib, f.primary.value).Some? then Decode(zlib, f.primary.value)
    else LoadBackup(zlib, f)
  }

  // ----- crash safety -----

  ghost predicate Holds(zlib: Bytes -> int, file: Option<Bytes>, r: Record) {
    file.Some? && Decode(zlib, file.value) == Some(r)
  }

  /** Wherever a save stops, a load then gives the old record if the rename had not happened and the new one if it
      had, never anything else. */
  lemma CrashLeavesOldOrNew(zlib: Bytes -> int, f: Files, old': Record, r: Record, stop: Stop)
    requires Holds(zlib, f.primary, old')
    ensures var after := if Packable(r) && Commits(stop) then Stored(r) else old';
      var g := SaveFiles(zlib, f, r, stop);
      Holds(zlib, g.primary, after) && LoadFiles(zlib, g) == Some(after)
  {
    if Packable(r) {
      DecodeEncode(zlib, r);
    }
  }

  /** Without a primary file nothing is loaded, and a save cut short leaves none unless it had come to the rename: the
      first save of all is done completely or, for a load, not at all. */
  lemma FirstSaveIsAllOrNothing(zlib: Bytes -> int, f: Files, r: Record, stop: Stop)
    requires f.primary == None
    ensures LoadFiles(zlib, SaveFiles(zlib, f, r, stop)) ==
      if Packable(r) && Commits(stop) then Some(Stored(r)) else None
  {
    if Packable(r) {
      DecodeEncode(zlib, r);
    }
  }

  /** Exactly when nothing is loaded although the backup is intact: there is no primary file. */
  lemma IntactBackupIsHiddenExactly(zlib: Bytes -> int, f: Files, r: Record)
    requires Holds(zlib, f.backup, r)
    ensures LoadFiles(zlib, f) == None <==> f.primary == None
  {
  }

  datatype Save = Save(record: Record, stop: Stop)

  function SaveAll(zlib: Bytes -> int, f: Files, saves: seq<Save>): Files
    decreases |saves|
  {
    if saves == [] then f else SaveAll(zlib, SaveFiles(zlib, f, saves[0].record, saves[0].stop), saves[1..])
  }

  /** The record of the last save that reached its rename, or first. */
  function LastCommitted(first: Record, saves: seq<Save>): Record
    decreases |saves|
  {
    if saves == [] then first
    else
      var s := saves[0];
      LastCommitted(if Packable(s.record) && Commits(s.stop) then Stored(s.record) else first, saves[1..])
  }

  /** Over any history of saves, each of them possibly cut short anywhere, a load gives the last committed record. */
  lemma {:induction false} LoadGivesLastCommitted(zlib: Bytes -> int, f: Files, first: Record, saves: seq<Save>)
    requires Holds(zlib, f.primary, first)
    ensures LoadFiles(zlib, SaveAll(zlib, f, saves)) == Some(LastCommitted(first, saves))
    decreases |saves|
  {
    if saves != [] {
      var s := saves[0];
      CrashLeavesOldOrNew(zlib, f, first, s.record, s.stop);
      LoadGivesLastCommitted(zlib, SaveFiles(zlib, f, s.record, s.stop),
        if Packable(s.record) && Commits(s.stop) then Stored(s.record) else first, saves[1..]);
    }
  }

  /** After a completed save, and any number of later saves that fail before their rename, a primary file corrupted in
      any detectable way still leaves the record of that save. */
  lemma {:induction false} BackupSurvivesCorruption(zlib: Bytes -> int, f: Files, r: Record, failed: seq<Save>,
        corrupt: Bytes)
    requires Packable(r) && Decode(zlib, corrupt) == None
    requires forall i :: 0 <= i < |failed| ==> !Commits(failed[i].stop)
    ensures var g := SaveAll(zlib, SaveFiles(zlib, f, r, Done), failed);
      LoadFiles(zlib, g.(primary := Some(corrupt))) == Some(Stored(r))
  {
    DecodeEncode(zlib, r);
    FailedSavesKeepFiles(zlib, SaveFiles(zlib, f, r, Done), failed);
  }

  lemma {:induction false} FailedSavesKeepFiles(zlib: Bytes -> int, f: Files, failed: seq<Save>)
    requires forall i :: 0 <= i < |failed| ==> !Commits(failed[i].stop)
    ensures var g := SaveAll(zlib, f, failed); g.primary == f.primary && g.backup == f.backup
    decreases |failed|
  {
    if failed != [] {
      FailedSavesKeepFiles(zlib, SaveFiles(zlib, f, failed[0].record, failed[0].stop), failed[1..]);
    }
  }

  /** The backup is consulted for a corrupt primary file only: without a primary file nothing is loaded. */
  lemma MissingPrimaryHidesBackup(zlib: Bytes -> int, f: Files, r: Record)
    requires Packable(r)
    ensures var g := SaveFiles(zlib, f, r, Done).(primary := None);
      LoadBackup(zlib, g) == Some(Stored(r)) && LoadFiles(zlib, g) == None
  {
    DecodeEncode(zlib, r);
  }

  // ----- the storage object -----

  class Storage {
    const zlib: Bytes -> int
    var primary: Option<Bytes>
    var backup: Option<Bytes>
    var temp: Option<Bytes>

    constructor (zlib: Bytes -> int)
      ensures this.zlib == zlib && Contents() == Files(None, None, None)
    {
      this.zlib := zlib;
      primary, backup, temp := None, None, None;
    }

    ghost function Contents(): Files
      reads this
    {
      Files(primary, backup, temp)
    }

    /** save, stopped by the outside world where stop says; the answer of a save cut short by a power loss is
        never seen. */
    method SaveRecord(r: Record, stop: Stop) returns (ok: bool)
      modifies this
      ensures Contents() == SaveFiles(zlib, old(Contents()), r, stop)
      ensures ok == (Packable(r) && Commits(stop))
    {
      if !Packable(r) {
        return false;
      }
      var payload := Payload(r);
      var data := payload + Pack(4, Checksum(zlib, payload));
      if stop.AtTemp? {
        temp := Some(stop.junk);
        return false;
      }
      temp := Some(data);
      if stop.BeforeRename? {
        return false;
      }
      primary, temp := temp, None;
      if stop.AtBackup? {
        backup := Some(stop.junk);
      } else if !stop.AfterRename? {
        backup := primary;
      }
      return true;
    }

    method LoadRecord() returns (r: Option<Record>)
      ensures r == LoadFiles(zlib, Contents())
    {
      if primary.None? {
        return None;
      }
      var data := primary.value;
      if |data| != RECORD_SIZE {
        r := LoadBackupRecord();
        return;
      }
      if data[..4] != MAGIC || Unpack(data[4..6]) != VERSION || Unpack(data[42..]) != Checksum(zlib, data[..42]) {
        r := LoadBackupRecord();
        return;
      }
      if !IsDate(Signed64(Unpack(data[34..42]))) {
        r := LoadBackupRecord();
        return;
      }
      return Some(Fields(data));
    }

    method LoadBackupRecord() returns (r: Option<Record>)
      ensures r == LoadBackup(zlib, Contents())
    {
      if backup.None? {
        return None;
      }
      r := Decode(zlib, backup.value);
    }
  }
}
