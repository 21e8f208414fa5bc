/** The integer register codecs: the two writers (modbus/modbus_writer.py, modbus/register_writer.py) and the decoders
    of models/bms_models.py. */
module Registers {
  import opened Common

  datatype DataType = U16 | S16 | U32 | S32 {
    function Low(): int {
      match this
      case U16 => 0
      case S16 => -32768
      case U32 => 0
      case S32 => -2147483648
    }

    function High(): int {
      match this
      case U16 => 65535
      case S16 => 32767
      case U32 => 4294967295
      case S32 => 2147483647
    }

    function Words(): nat {
      if this in {U16, S16} then 1 else 2
    }
  }

  /** Python's round(): to the nearest whole number, halves to the even one. */
  function Round(x: real): int {
    var n := x.Floor;
    var rest := x - n as real;
    if rest < 0.5 || (rest == 0.5 && n % 2 == 0) then n else n + 1
  }

  function Clamp(t: DataType, n: int): (c: int)
    ensures t.Low() <= c <= t.High()
    ensures t.Low() <= n <= t.High() ==> c == n
  {
    if n < t.Low() then t.Low() else if n > t.High() then t.High() else n
  }

  /** A number in range as unsigned words, high word first. */
  function Split(t: DataType, n: int): seq<int> {
    match t
    case U16 => [n]
    case S16 => [if n < 0 then n + 65536 else n]
    case U32 => [n / 65536 % 65536, n % 65536]
    case S32 =>
      var u := if n < 0 then n + 4294967296 else n;
      [u / 65536 % 65536, u % 65536]
  }

  /** _convert_to_registers of the writer that rounds */
  function ToRegisters(t: DataType, value: real): seq<int> {
    Split(t, Clamp(t, Round(value)))
  }

  function Scaled(value: real, scale: real, offset: real): real {
    (value + offset) * scale
  }

  /** _convert_value of the writer that truncates */
  function ConvertValue(t: DataType, value: real, scale: real, offset: real): seq<int> {
    Split(t, Clamp(t, Trunc(Scaled(value, scale, offset))))
  }

  /** to_signed */
  function ToSigned16(word: int): int {
    if word > 32767 then word - 65536 else word
  }

  /** to_signed, to_int32 and the unsigned readings */
  function FromRegisters(t: DataType, words: seq<int>): int
    requires |words| == t.Words()
  {
    match t
    case U16 => words[0]
    case S16 => ToSigned16(words[0])
    case U32 => words[0] * 65536 + words[1]
    case S32 =>
      var u := words[0] * 65536 + words[1];
      if u > 2147483647 then u - 4294967296 else u
  }

  lemma SplitRoundTrip(t: DataType, n: int)
    requires t.Low() <= n <= t.High()
    ensures var words := Split(t, n);
      && |words| == t.Words()
      && (forall i :: 0 <= i < |words| ==> 0 <= words[i] <= 65535)
      && FromRegisters(t, words) == n
      && (if t in {U16, S16} then words[0] == n % 65536 else words[0] * 65536 + words[1] == n % 4294967296)
  {
    match t {
      case U16 =>
      case S16 =>
      case U32 => HighAndLow(n);
      case S32 => HighAndLow(if n < 0 then n + 4294967296 else n);
    }
  }

  lemma HighAndLow(u: int)
    requires 0 <= u < 4294967296
    ensures 0 <= u / 65536 < 65536 && u / 65536 % 65536 == u / 65536
    ensures u / 65536 * 65536 + u % 65536 == u
    ensures u % 4294967296 == u
  {
  }

  /** Decoding the written words gives the clamped, rounded value, and every word fits its register. */
  lemma WriterRoundTrip(t: DataType, value: real)
    ensures var words := ToRegisters(t, value);
      && |words| == t.Words()
      && (forall i :: 0 <= i < |words| ==> 0 <= words[i] <= 65535)
      && FromRegisters(t, words) == Clamp(t, Round(value))
  {
    SplitRoundTrip(t, Clamp(t, Round(value)));
  }

  lemma RoundMonotone(x: real, y: real)
    requires x <= y
    ensures Round(x) <= Round(y)
  {
    assert x.Floor <= y.Floor;
  }

  /** A type takes every number that its words can hold: unsigned from 0, signed the same number on both sides. */
  lemma RangeFillsWords(t: DataType)
    ensures t.High() - t.Low() + 1 == if t in {U16, S16} then 0x1_0000 else 0x1_0000_0000
    ensures t.Low() == if t in {U16, U32} then 0 else -1 - t.High()
    ensures t.Words() == if t in {U16, S16} then 1 else 2
  {
  }

  /** What is read back is the whole number nearest to the value, of two the even one, within the range of the type; and
      its words are those of the number in two's complement, high word first. */
  lemma WriterIsNearest(t: DataType, value: real)
    ensures var words := ToRegisters(t, value);
      && |words| == t.Words()
      && var n := FromRegisters(t, words);
         && t.Low() <= n <= t.High()
         && (value < t.Low() as real ==> n == t.Low())
         && (value > t.High() as real ==> n == t.High())
         && (t.Low() as real <= value <= t.High() as real ==>
               -0.5 <= n as real - value <= 0.5 && (n as real - value in {-0.5, 0.5} ==> n % 2 == 0))
         && (if t in {U16, S16} then words[0] == n % 65536 else words[0] * 65536 + words[1] == n % 4294967296)
  {
    WriterRoundTrip(t, value);
    SplitRoundTrip(t, Clamp(t, Round(value)));
    RoundIsNearest(value);
    hide Round, Split, FromRegisters;
  }

  lemma RoundIsNearest(x: real)
    ensures -0.5 <= Round(x) as real - x <= 0.5
    ensures Round(x) as real - x in {-0.5, 0.5} ==> Round(x) % 2 == 0
  {
  }

  /** A larger value is never read back as a smaller one. */
  lemma WriterKeepsOrder(t: DataType, x: real, y: real)
    requires x <= y
    ensures |ToRegisters(t, x)| == |ToRegisters(t, y)| == t.Words()
    ensures FromRegisters(t, ToRegisters(t, x)) <= FromRegisters(t, ToRegisters(t, y))
  {
    RoundMonotone(x, y);
    WriterRoundTrip(t, x);
    WriterRoundTrip(t, y);
  }

  /** The truncating writer: decoding gives the clamped, truncated value, and every word fits its register. */
  lemma ConvertedRoundTrip(t: DataType, value: real, scale: real, offset: real)
    ensures var words := ConvertValue(t, value, scale, offset);
      && |words| == t.Words()
      && (forall i :: 0 <= i < |words| ==> 0 <= words[i] <= 65535)
      && FromRegisters(t, words) == Clamp(t, Trunc(Scaled(value, scale, offset)))
  {
    SplitRoundTrip(t, Clamp(t, Trunc(Scaled(value, scale, offset))));
  }

  /** The truncating writer adds the offset, then scales, then drops the fraction, within the range of the type. */
  lemma ConvertedIsTruncated(t: DataType, value: real, scale: real, offset: real)
    ensures var words := ConvertValue(t, value, scale, offset); var x := value * scale + offset * scale;
      && |words| == t.Words()
      && var n := FromRegisters(t, words);
         && t.Low() <= n <= t.High()
         && (x < t.Low() as real ==> n == t.Low())
         && (x > t.High() as real ==> n == t.High())
         && (t.Low() as real <= x <= t.High() as real ==>
               if x >= 0.0 then n as real <= x < n as real + 1.0 else n as real - 1.0 < x <= n as real)
  {
    ConvertedRoundTrip(t, value, scale, offset);
    assert Scaled(value, scale, offset) == value * scale + offset * scale;
    TruncDropsFraction(Scaled(value, scale, offset));
    hide Scaled, Trunc, ConvertValue, FromRegisters;
  }

  lemma TruncDropsFraction(x: real)
    ensures if x >= 0.0 then 0 <= Trunc(x) && Trunc(x) as real <= x < Trunc(x) as real + 1.0
      else Trunc(x) <= 0 && Trunc(x) as real - 1.0 < x <= Trunc(x) as real
  {
  }

  /** With a positive scale a larger value is never read back as a smaller one, with a negative scale never as a larger
      one. */
  lemma ConvertKeepsOrder(t: DataType, x: real, y: real, scale: real, offset: real)
    requires x <= y
    ensures |ConvertValue(t, x, scale, offset)| == |ConvertValue(t, y, scale, offset)| == t.Words()
    ensures var a, b := FromRegisters(t, ConvertValue(t, x, scale, offset)), FromRegisters(t, ConvertValue(t, y,
      scale, offset));
      (scale >= 0.0 ==> a <= b) && (scale <= 0.0 ==> b <= a)
  {
    ConvertedRoundTrip(t, x, scale, offset);
    ConvertedRoundTrip(t, y, scale, offset);
    hide ConvertValue, FromRegisters, Scaled;
    var u, v := Scaled(x, scale, offset), Scaled(y, scale, offset);
    ScaledOrder(x, y, scale, offset);
    if scale >= 0.0 {
      TruncMonotone(u, v);
    }
    if scale <= 0.0 {
      TruncMonotone(v, u);
    }
  }

  lemma ScaledOrder(x: real, y: real, scale: real, offset: real)
    requires x <= y
    ensures scale >= 0.0 ==> Scaled(x, scale, offset) <= Scaled(y, scale, offset)
    ensures scale <= 0.0 ==> Scaled(y, scale, offset) <= Scaled(x, scale, offset)
  {
    if scale >= 0.0 {
      ScaleKeepsOrder(x + offset, y + offset, scale);
    }
    if scale <= 0.0 {
      ScaleTurnsOrder(x + offset, y + offset, scale);
    }
  }

  lemma ScaleKeepsOrder(x: real, y: real, scale: real)
    requires x <= y && scale >= 0.0
    ensures x * scale <= y * scale
  {
    assert (y - x) * scale >= 0.0;
  }

  lemma ScaleTurnsOrder(x: real, y: real, scale: real)
    requires x <= y && scale <= 0.0
    ensures y * scale <= x * scale
  {
    assert (y - x) * scale <= 0.0;
  }

  /** At scale 1 and offset 0 the two writers write the same words exactly when rounding and truncating give the same
      number in range; on whole numbers they always do. */
  lemma WritersAgree(t: DataType, value: real)
    ensures ToRegisters(t, value) == ConvertValue(t, value, 1.0, 0.0) <==>
      Clamp(t, Round(value)) == Clamp(t, Trunc(value))
    ensures value == value.Floor as real ==> ToRegisters(t, value) == ConvertValue(t, value, 1.0, 0.0)
  {
    assert Scaled(value, 1.0, 0.0) == value;
    SplitRoundTrip(t, Clamp(t, Round(value)));
    SplitRoundTrip(t, Clamp(t, Trunc(value)));
    if value == value.Floor as real {
      assert Trunc(value) == value.Floor;
    }
  }

  /** They differ from the first half on. */
  lemma WritersDisagree()
    ensures ToRegisters(U16, 1.6) == [2] && ConvertValue(U16, 1.6, 1.0, 0.0) == [1]
  {
  }
}
