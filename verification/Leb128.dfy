// LEB128 numbers (section 7.6 of the DWARF 4 standard) as src/dwarf_eh.h reads them.
//
// The reader shifts a digit as a 32-bit int. A shift by 32 or more has no defined result. A shift
// that leaves the range of int has none either when shifts are `checked`; otherwise it keeps the
// low 32 bits, as common compilers do.
module Leb128 {
  import opened Lists

  type Byte = b: int | 0 <= b < 0x100

  const TWO_31 := 0x8000_0000
  const TWO_32 := 0x1_0000_0000
  const TWO_63 := 0x8000_0000_0000_0000
  const TWO_64 := 0x1_0000_0000_0000_0000

  // A number cut to 32 bits.
  function Wrap32(v: int): int {
    var low := v % TWO_32;
    if low < TWO_31 then low else low - TWO_32
  }

  // A number less than 2^64 away from the range of uint64_t, wrapped into it.
  function Wrap64(v: int): (r: nat)
    requires -TWO_64 <= v < 2 * TWO_64
    ensures r < TWO_64
  {
    if v < 0 then v + TWO_64 else if v < TWO_64 then v else v - TWO_64
  }

  function Signed64(v: nat): int
    requires v < TWO_64
  {
    if v < TWO_63 then v else v - TWO_64
  }

  // The shifts in use are multiples of seven.
  predicate Sevens(bit: nat) {
    bit == 0 || bit == 7 || bit == 14 || bit == 21 || bit == 28 || bit == 35
  }

  // n << bit, without regard to width.
  function Shl(n: int, bit: nat): int
    requires Sevens(bit)
  {
    if bit == 0 then n
    else if bit == 7 then n * 0x80
    else if bit == 14 then n * 0x4000
    else if bit == 21 then n * 0x20_0000
    else if bit == 28 then n * 0x1000_0000
    else n * 0x8_0000_0000
  }

  function ShiftInt(digit: nat, bit: nat, checked: bool): (r: Option<int>)
    requires Sevens(bit)
    ensures r.Some? ==> -TWO_31 <= r.value < TWO_31
  {
    if bit >= 32 then None
    else
      var v := Shl(digit, bit);
      if v < TWO_31 then Some(v) else if checked then None else Some(Wrap32(v))
  }

  // The value of a number, the number of bits read, and the position after it.
  datatype Reading = Reading(value: nat, bits: nat, next: nat)

  // read_leb128 from position pos on, with the value and the shift accumulated so far. None stands
  // for a result that is not defined, and for reading beyond the bytes at hand. The shift stops
  // having a defined result before the assertion that it is below 64 could fail.
  function ReadFrom(s: seq<Byte>, pos: nat, uleb: nat, bit: nat, checked: bool): (r: Option<Reading>)
    requires Sevens(bit) && uleb < TWO_64
    ensures r.Some? ==> r.value.value < TWO_64 && r.value.bits > bit && Sevens(r.value.bits) && pos < r.value.next <= |s|
    decreases |s| - pos
  {
    if pos >= |s| then None
    else
      match ShiftInt(s[pos] % 0x80, bit, checked)
      case None => None
      case Some(v) =>
        var uleb' := Wrap64(uleb + v);
        if s[pos] < 0x80 then Some(Reading(uleb', bit + 7, pos + 1))
        else ReadFrom(s, pos + 1, uleb', bit + 7, checked)
  }

  method ReadLeb128(s: seq<Byte>, start: nat, checked: bool) returns (r: Option<Reading>)
    ensures r == ReadFrom(s, start, 0, 0, checked)
  {
    var pos: nat, uleb: nat, bit: nat := start, 0, 0;
    while pos < |s|
      invariant Sevens(bit) && uleb < TWO_64
      invariant ReadFrom(s, start, 0, 0, checked) == ReadFrom(s, pos, uleb, bit, checked)
      decreases |s| - pos
    {
      assert bit < 64;
      var digit := s[pos] % 0x80;
      var shifted := ShiftInt(digit, bit, checked);
      if shifted.None? {
        return None;
      }
      uleb := Wrap64(uleb + shifted.value);
      bit := bit + 7;
      pos := pos + 1;
      if s[pos - 1] == digit {
        return Some(Reading(uleb, bit, pos));
      }
    }
    return None;
  }

  function ReadUleb(s: seq<Byte>, pos: nat, checked: bool): Option<(int, nat)> {
    match ReadFrom(s, pos, 0, 0, checked)
    case None => None
    case Some(r) => Some((Signed64(r.value), r.next))
  }

  // The top bit read decides the sign: a value shifted right by bits - 1 is 1 when it lies between
  // 2^(bits - 1) and 2^bits, and setting all higher bits then takes 2^bits off.
  function SignExtend(r: Reading): int
    requires r.value < TWO_64 && Sevens(r.bits)
  {
    if 2 * r.value >= Shl(1, r.bits) && r.value < Shl(1, r.bits) then r.value - Shl(1, r.bits) else Signed64(r.value)
  }

  function ReadSleb(s: seq<Byte>, pos: nat, checked: bool): Option<(int, nat)> {
    match ReadFrom(s, pos, 0, 0, checked)
    case None => None
    case Some(r) => Some((SignExtend(r), r.next))
  }

  // ----- The standard's encoders -----

  function EncodeU(n: nat): (s: seq<Byte>)
    ensures |s| > 0
  {
    if n < 0x80 then [n] else [0x80 + n % 0x80] + EncodeU(n / 0x80)
  }

  function EncodeS(n: int): (s: seq<Byte>)
    ensures |s| > 0
    decreases if n < 0 then -n else n
  {
    if -0x40 <= n < 0x40 then [n % 0x80] else [0x80 + n % 0x80] + EncodeS(n / 0x80)
  }

  // ----- What reading an encoded number gives -----

  lemma ShiftDigit(d: nat, bit: nat, checked: bool)
    requires Sevens(bit) && bit < 32 && d < 0x80 && Shl(d, bit) < TWO_31
    ensures Shl(d, bit) >= 0 && ShiftInt(d, bit, checked) == Some(Shl(d, bit))
  {
  }

  // One digit whose shift stays in range.
  lemma ReadDigit(s: seq<Byte>, pos: nat, d: nat, acc: nat, bit: nat, checked: bool)
    requires pos < |s| && d < 0x80 && (s[pos] == d || s[pos] == 0x80 + d) && Sevens(bit) && bit < 32 && acc < TWO_31
    requires Shl(d, bit) < TWO_31
    ensures Shl(d, bit) >= 0
    ensures s[pos] == d ==> ReadFrom(s, pos, acc, bit, checked) == Some(Reading(acc + Shl(d, bit), bit + 7, pos + 1))
    ensures s[pos] != d ==> ReadFrom(s, pos, acc, bit, checked) == ReadFrom(s, pos + 1, acc + Shl(d, bit), bit + 7, checked)
  {
    ShiftDigit(d, bit, checked);
    var v := Shl(d, bit);
    assert Wrap64(acc + v) == acc + v;
    assert s[pos] % 0x80 == d;
  }

  // The fifth digit: only its low four bits fit.
  lemma ReadLast(s: seq<Byte>, pos: nat, d: nat, acc: nat, checked: bool)
    requires pos < |s| && d < 0x80 && s[pos] == d && acc < 0x1000_0000
    ensures var low := if d % 0x10 < 8 then d % 0x10 else d % 0x10 - 0x10;
      ReadFrom(s, pos, acc, 28, checked) ==
        if d >= 8 && checked then None
        else Some(Reading(Wrap64(acc + low * 0x1000_0000), 35, pos + 1))
  {
    var v := d * 0x1000_0000;
    assert v % TWO_32 == (d % 0x10) * 0x1000_0000;
  }

  // A sixth digit is never read.
  lemma ReadSixth(s: seq<Byte>, pos: nat, acc: nat, checked: bool)
    requires pos + 1 < |s| && s[pos] >= 0x80 && acc < TWO_64
    ensures ReadFrom(s, pos, acc, 28, checked).None?
  {
  }

  // Taking off one digit.
  lemma SplitDigit(n: int, acc: nat, bit: nat)
    requires Sevens(bit) && bit < 28 && acc < Shl(1, bit)
    ensures Shl(n % 0x80, bit) >= 0 && acc + Shl(n % 0x80, bit) < Shl(1, bit + 7)
    ensures acc + Shl(n, bit) == acc + Shl(n % 0x80, bit) + Shl(n / 0x80, bit + 7)
    ensures n / 0x80 == -1 && -0x80 <= n < -0x40 ==> 2 * (acc + Shl(n % 0x80, bit)) < Shl(1, bit + 7)
  {
  }

  lemma MoreDigitsU(s: seq<Byte>, pos: nat, n: nat, acc: nat, bit: nat, next: nat, checked: bool)
    requires StandsAt(s, pos, EncodeU(n)) && Sevens(bit) && bit < 28 && acc < Shl(1, bit) && n >= 0x80
    requires next == acc + Shl(n % 0x80, bit)
    ensures next < Shl(1, bit + 7) && acc + Shl(n, bit) == next + Shl(n / 0x80, bit + 7)
    ensures ReadFrom(s, pos, acc, bit, checked) == ReadFrom(s, pos + 1, next, bit + 7, checked)
    ensures StandsAt(s, pos + 1, EncodeU(n / 0x80)) && |EncodeU(n)| == 1 + |EncodeU(n / 0x80)|
  {
    SplitDigit(n, acc, bit);
    StandsCons(s, pos, 0x80 + n % 0x80, EncodeU(n / 0x80));
    ReadDigit(s, pos, n % 0x80, acc, bit, checked);
  }

  // Reading an unsigned number gives that number exactly when it is below 2^31.
  lemma {:induction false} DecodesU(s: seq<Byte>, pos: nat, n: nat, acc: nat, bit: nat, total: nat, checked: bool)
    requires StandsAt(s, pos, EncodeU(n)) && Sevens(bit) && bit < 32 && acc < Shl(1, bit) && total == acc + Shl(n, bit)
    ensures var r := ReadFrom(s, pos, acc, bit, checked);
      (r.Some? && r.value.value == total && r.value.next == pos + |EncodeU(n)|) <==> total < TWO_31
    decreases n
  {
    if n < 0x80 {
      assert EncodeU(n) == [n] + [];
      StandsCons(s, pos, n, []);
      if bit == 28 {
        ReadLast(s, pos, n, acc, checked);
      } else {
        ReadDigit(s, pos, n, acc, bit, checked);
      }
    } else if bit == 28 {
      StandsCons(s, pos, 0x80 + n % 0x80, EncodeU(n / 0x80));
      ReadSixth(s, pos, acc, checked);
    } else {
      var next := acc + Shl(n % 0x80, bit);
      SplitDigit(n, acc, bit);
      MoreDigitsU(s, pos, n, acc, bit, next, checked);
      DecodesU(s, pos + 1, n / 0x80, next, bit + 7, total, checked);
    }
  }

  predicate FitsSigned(n: int, checked: bool) {
    (if checked then -0x800_0000 else -TWO_31) <= n < TWO_31
  }

  ghost predicate Means(r: Option<Reading>, total: int, next: nat) {
    r.Some? && r.value.value < TWO_64 && Sevens(r.value.bits) && SignExtend(r.value) == total && r.value.next == next
  }

  // The sign of a value whose bits were all read.
  lemma Extends(u: nat, bits: nat, next: nat)
    requires Sevens(bits) && 0 < bits < 35 && u < Shl(1, bits)
    ensures SignExtend(Reading(u, bits, next)) == if 2 * u < Shl(1, bits) then u else u - Shl(1, bits)
  {
  }

  lemma ExtendsFifth(acc: nat, low: int, next: nat)
    requires acc < 0x1000_0000 && -8 <= low < 8
    ensures SignExtend(Reading(Wrap64(acc + low * 0x1000_0000), 35, next)) == acc + low * 0x1000_0000
  {
  }

  // The last digit carries the sign.
  lemma SignDigit(n: int, acc: nat, bit: nat)
    requires Sevens(bit) && bit < 28 && acc < Shl(1, bit) && -0x40 <= n < 0x40
    ensures var u := acc + Shl(n % 0x80, bit);
      && 0 <= u < Shl(1, bit + 7) && Shl(n % 0x80, bit) < TWO_31
      && acc + Shl(n, bit) == if 2 * u < Shl(1, bit + 7) then u else u - Shl(1, bit + 7)
    ensures FitsSigned(acc + Shl(n, bit), true)
  {
  }

  lemma LastDigitS(s: seq<Byte>, pos: nat, n: int, acc: nat, bit: nat, total: int, checked: bool)
    requires StandsAt(s, pos, EncodeS(n)) && Sevens(bit) && bit < 28 && acc < Shl(1, bit) && total == acc + Shl(n, bit)
    requires -0x40 <= n < 0x40
    ensures Means(ReadFrom(s, pos, acc, bit, checked), total, pos + 1) && FitsSigned(total, checked)
  {
    var d := n % 0x80;
    assert EncodeS(n) == [d] + [];
    StandsCons(s, pos, d, []);
    SignDigit(n, acc, bit);
    ReadDigit(s, pos, d, acc, bit, checked);
    Extends(acc + Shl(d, bit), bit + 7, pos + 1);
  }

  lemma FifthDigitS(s: seq<Byte>, pos: nat, n: int, acc: nat, total: int, checked: bool)
    requires StandsAt(s, pos, EncodeS(n)) && acc < 0x1000_0000 && total == acc + n * 0x1000_0000
    requires -0x40 <= n < 0x40 && (n == -1 ==> acc < 0x800_0000)
    ensures Means(ReadFrom(s, pos, acc, 28, checked), total, pos + 1) <==> FitsSigned(total, checked)
  {
    var d := n % 0x80;
    assert EncodeS(n) == [d] + [];
    StandsCons(s, pos, d, []);
    ReadLast(s, pos, d, acc, checked);
    ExtendsFifth(acc, if d % 0x10 < 8 then d % 0x10 else d % 0x10 - 0x10, pos + 1);
  }

  lemma MoreDigitsS(s: seq<Byte>, pos: nat, n: int, acc: nat, bit: nat, next: nat, checked: bool)
    requires StandsAt(s, pos, EncodeS(n)) && Sevens(bit) && bit < 28 && acc < Shl(1, bit) && !(-0x40 <= n < 0x40)
    requires next == acc + Shl(n % 0x80, bit)
    ensures next < Shl(1, bit + 7) && acc + Shl(n, bit) == next + Shl(n / 0x80, bit + 7)
    ensures n / 0x80 == -1 ==> 2 * next < Shl(1, bit + 7)
    ensures ReadFrom(s, pos, acc, bit, checked) == ReadFrom(s, pos + 1, next, bit + 7, checked)
    ensures StandsAt(s, pos + 1, EncodeS(n / 0x80)) && |EncodeS(n)| == 1 + |EncodeS(n / 0x80)|
  {
    SplitDigit(n, acc, bit);
    StandsCons(s, pos, 0x80 + n % 0x80, EncodeS(n / 0x80));
    ReadDigit(s, pos, n % 0x80, acc, bit, checked);
  }

  lemma SixthDigitS(s: seq<Byte>, pos: nat, n: int, acc: nat, total: int, checked: bool)
    requires StandsAt(s, pos, EncodeS(n)) && acc < 0x1000_0000 && total == acc + n * 0x1000_0000
    requires !(-0x40 <= n < 0x40)
    ensures ReadFrom(s, pos, acc, 28, checked).None? && !FitsSigned(total, checked)
  {
    StandsCons(s, pos, 0x80 + n % 0x80, EncodeS(n / 0x80));
    ReadSixth(s, pos, acc, checked);
  }

  // Reading a signed number gives that number exactly when it is in range.
  lemma {:induction false} DecodesS(s: seq<Byte>, pos: nat, n: int, acc: nat, bit: nat, total: int, checked: bool)
    requires StandsAt(s, pos, EncodeS(n)) && Sevens(bit) && bit < 32 && acc < Shl(1, bit) && total == acc + Shl(n, bit)
    requires bit > 0 && n == -1 ==> 2 * acc < Shl(1, bit)
    ensures Means(ReadFrom(s, pos, acc, bit, checked), total, pos + |EncodeS(n)|) <==> FitsSigned(total, checked)
    decreases if n < 0 then -n else n
  {
    if -0x40 <= n < 0x40 {
      if bit == 28 { FifthDigitS(s, pos, n, acc, total, checked); } else { LastDigitS(s, pos, n, acc, bit, total, checked); }
    } else if bit == 28 {
      SixthDigitS(s, pos, n, acc, total, checked);
    } else {
      var next := acc + Shl(n % 0x80, bit);
      SplitDigit(n, acc, bit);
      MoreDigitsS(s, pos, n, acc, bit, next, checked);
      DecodesS(s, pos + 1, n / 0x80, next, bit + 7, total, checked);
    }
  }

  // ----- Round trips -----

  // Decoding the minimal encoding of n, followed by any bytes, returns n and stops right after it
  // exactly when n is below 2^31.
  lemma UlebRoundTrip(before: seq<Byte>, n: nat, after: seq<Byte>, checked: bool)
    ensures ReadUleb(before + EncodeU(n) + after, |before|, checked) == Some((n, |before| + |EncodeU(n)|)) <==> n < TWO_31
  {
    var s := before + EncodeU(n) + after;
    assert StandsAt(s, |before|, EncodeU(n));
    DecodesU(s, |before|, n, 0, 0, n, checked);
  }

  // The same for signed numbers: the range is [-2^27, 2^31), or [-2^31, 2^31) where shifts keep
  // the low 32 bits.
  lemma SlebRoundTrip(before: seq<Byte>, n: int, after: seq<Byte>, checked: bool)
    ensures ReadSleb(before + EncodeS(n) + after, |before|, checked) == Some((n, |before| + |EncodeS(n)|)) <==> FitsSigned(n, checked)
  {
    var s := before + EncodeS(n) + after;
    assert StandsAt(s, |before|, EncodeS(n));
    DecodesS(s, |before|, n, 0, 0, n, checked);
  }
}
