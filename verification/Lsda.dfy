// The language-specific data area: encoded values, the call-site table, the action table and the
// type table, read byte by byte as src/dwarf_eh.h and src/exception.cc read them.
//
// Pointers into the area are positions in its bytes. Numbers are little-endian, addresses have 64
// bits, and every value is a uint64_t. None stands for abort and for results that are not defined.
module Lsda {
  import opened Lists
  import opened Leb128

  datatype Encoding = AbsPtr | ULeb | UData2 | UData4 | UData8 | SLeb | SData2 | SData4 | SData8

  // get_encoding with the cases that read_value knows.
  function GetEncoding(b: Byte): Option<Encoding> {
    var low := b % 0x10;
    if low == 0x0 then Some(AbsPtr) else if low == 0x1 then Some(ULeb) else if low == 0x2 then Some(UData2)
    else if low == 0x3 then Some(UData4) else if low == 0x4 then Some(UData8) else if low == 0x9 then Some(SLeb)
    else if low == 0xa then Some(SData2) else if low == 0xb then Some(SData4) else if low == 0xc then Some(SData8)
    else None
  }

  // dwarf_size_of_fixed_size_field; None stands for abort.
  function FixedSize(e: Encoding): Option<nat> {
    match e
    case UData2 => Some(2)
    case SData2 => Some(2)
    case UData4 => Some(4)
    case SData4 => Some(4)
    case UData8 => Some(8)
    case SData8 => Some(8)
    case AbsPtr => Some(8)
    case ULeb => None
    case SLeb => None
  }

  function Pow256(n: nat): (r: nat)
    ensures r > 0
  {
    if n == 0 then 1 else 0x100 * Pow256(n - 1)
  }

  function Little(s: seq<Byte>): (r: nat)
    ensures r < Pow256(|s|)
  {
    if s == [] then 0 else s[0] + 0x100 * Little(s[1..])
  }

  function Limit(size: nat): int {
    if size == 2 then 0x1_0000 else if size == 4 then TWO_32 else TWO_64
  }

  lemma Powers(n: nat)
    requires n == 2 || n == 4 || n == 8
    ensures Pow256(n) == Limit(n)
  {
    assert Pow256(2) == 0x1_0000;
    assert Pow256(4) == 0x100 * (0x100 * Pow256(2));
    assert Pow256(6) == 0x100 * (0x100 * Pow256(4));
    assert Pow256(8) == 0x100 * (0x100 * Pow256(6));
  }

  function FixedValue(e: Encoding, s: seq<Byte>): (r: nat)
    requires |s| == 2 || |s| == 4 || |s| == 8
    ensures r < TWO_64
  {
    Powers(|s|);
    var v := Little(s);
    var negative := (e.SData2? || e.SData4?) && 2 * v >= Limit(|s|);
    Wrap64(if negative then v - Limit(|s|) else v)
  }

  // read_value
  function ReadValue(e: Encoding, s: seq<Byte>, pos: nat): (r: Option<(nat, nat)>)
    ensures r.Some? ==> r.value.0 < TWO_64 && pos < r.value.1 <= |s|
  {
    match FixedSize(e)
    case Some(size) =>
      if pos + size > |s| then None
      else Some((FixedValue(e, s[pos..pos + size]), pos + size))
    case None =>
      match ReadFrom(s, pos, 0, 0, true)
      case None => None
      case Some(r) => Some((Wrap64(if e.SLeb? then SignExtend(r) else Signed64(r.value)), r.next))
  }

  // ----- The call-site table -----

  datatype Area = Area(
    bytes: seq<Byte>,
    callSiteEncoding: Encoding,
    callSites: nat,              // where the call-site table starts
    actions: nat,                // where the action table starts, right after it
    landingPads: int,            // the address that landing pads are relative to
    typeEncoding: Encoding,
    types: nat)                  // where the type table ends

  // A landing pad of zero is none. An action is the position of an action record.
  datatype Lookup = Found(landingPad: int, action: Option<nat>) | Missing | Garbled

  function Site(a: Area, pad: nat, action: nat): Lookup {
    Found(if pad != 0 then a.landingPads + pad else 0, if action != 0 then Some(a.actions + action - 1) else None)
  }

  // The start and the size of a record, and the position after them.
  function ReadRange(a: Area, pos: nat): (r: Option<(nat, nat, nat)>)
    ensures r.Some? ==> r.value.0 < TWO_64 && r.value.1 < TWO_64 && pos < r.value.2 <= |a.bytes|
  {
    match ReadValue(a.callSiteEncoding, a.bytes, pos)
    case None => None
    case Some((start, p)) =>
      match ReadValue(a.callSiteEncoding, a.bytes, p)
      case None => None
      case Some((size, q)) => Some((start, size, q))
  }

  // The landing pad and the action of a record, and the position after them.
  function ReadTarget(a: Area, pos: nat): (r: Option<(nat, nat, nat)>)
    ensures r.Some? ==> pos < r.value.2 <= |a.bytes|
  {
    match ReadValue(a.callSiteEncoding, a.bytes, pos)
    case None => None
    case Some((pad, p)) =>
      match ReadValue(ULeb, a.bytes, p)
      case None => None
      case Some((action, q)) => Some((pad, action, q))
  }

  datatype Scan = Stop(result: Lookup) | Go(next: nat)

  // What the record at a position says about ip. The end of a record is computed modulo 2^64.
  function Examine(a: Area, ip: nat, pos: nat): (r: Scan)
    ensures r.Go? ==> pos < r.next <= |a.bytes|
  {
    match ReadRange(a, pos)
    case None => Stop(Garbled)
    case Some((start, size, p)) =>
      if start > ip then Stop(Missing)
      else
        match ReadTarget(a, p)
        case None => Stop(Garbled)
        case Some((pad, action, q)) =>
          if start < ip <= Wrap64(start + size) then Stop(Site(a, pad, action)) else Go(q)
  }

  // dwarf_eh_find_callsite from a position in the table on.
  function FindFrom(a: Area, ip: nat, pos: nat): Lookup
    decreases |a.bytes| - pos
  {
    if pos > a.actions then Missing
    else
      match Examine(a, ip, pos)
      case Stop(result) => result
      case Go(next) => FindFrom(a, ip, next)
  }

  method FindCallSite(a: Area, ip: nat) returns (r: Lookup)
    ensures r == FindFrom(a, ip, a.callSites)
  {
    var pos := a.callSites;
    while pos <= a.actions
      invariant FindFrom(a, ip, a.callSites) == FindFrom(a, ip, pos)
      decreases |a.bytes| - pos
    {
      var scan := Examine(a, ip, pos);
      if scan.Stop? {
        return scan.result;
      }
      pos := scan.next;
    }
    return Missing;
  }

  // ----- Encoded values -----

  function Bytes(v: nat, n: nat): (s: seq<Byte>)
    ensures |s| == n
  {
    if n == 0 then [] else [v % 0x100] + Bytes(v / 0x100, n - 1)
  }

  function EncodeValue(e: Encoding, v: nat): seq<Byte> {
    match FixedSize(e)
    case Some(size) => Bytes(v, size)
    case None => if e.SLeb? then EncodeS(v) else EncodeU(v)
  }

  // The values that an encoding reproduces.
  predicate Encodable(e: Encoding, v: nat) {
    match FixedSize(e)
    case Some(size) => v < if e.SData2? || e.SData4? then Limit(size) / 2 else Limit(size)
    case None => v < TWO_31
  }

  lemma {:induction false} LittleBytes(v: nat, n: nat)
    requires v < Pow256(n)
    ensures Little(Bytes(v, n)) == v
  {
    if n > 0 {
      LittleBytes(v / 0x100, n - 1);
    }
  }

  lemma LittleBytesBelow(v: nat, size: nat)
    requires (size == 2 || size == 4 || size == 8) && v < Limit(size)
    ensures Little(Bytes(v, size)) == v
  {
    Powers(size);
    LittleBytes(v, size);
  }

  lemma ReadsFixed(e: Encoding, s: seq<Byte>, pos: nat, v: nat)
    requires Encodable(e, v) && StandsAt(s, pos, EncodeValue(e, v)) && FixedSize(e).Some?
    ensures ReadValue(e, s, pos) == Some((v, pos + |EncodeValue(e, v)|))
  {
    assert s[pos..pos + |EncodeValue(e, v)|] == EncodeValue(e, v);
    LittleBytesBelow(v, FixedSize(e).value);
  }

  lemma ReadsLeb(e: Encoding, s: seq<Byte>, pos: nat, v: nat)
    requires Encodable(e, v) && StandsAt(s, pos, EncodeValue(e, v)) && FixedSize(e).None?
    ensures ReadValue(e, s, pos) == Some((v, pos + |EncodeValue(e, v)|))
  {
    if e.SLeb? {
      DecodesS(s, pos, v, 0, 0, v, true);
    } else {
      DecodesU(s, pos, v, 0, 0, v, true);
    }
  }

  lemma ReadsValue(e: Encoding, s: seq<Byte>, pos: nat, v: nat)
    requires Encodable(e, v) && StandsAt(s, pos, EncodeValue(e, v))
    ensures ReadValue(e, s, pos) == Some((v, pos + |EncodeValue(e, v)|))
  {
    if FixedSize(e).Some? {
      ReadsFixed(e, s, pos, v);
    } else {
      ReadsLeb(e, s, pos, v);
    }
  }

  // ----- The codes -----

  // read_value as it is called, with the byte that names the encoding.
  function ReadEncoded(code: Byte, s: seq<Byte>, pos: nat): Option<(nat, nat)> {
    match GetEncoding(code)
    case None => None
    case Some(e) => ReadValue(e, s, pos)
  }

  // Two, four and eight bytes, the lowest first.
  function Two(s: seq<Byte>, pos: nat): nat
    requires pos + 2 <= |s|
  {
    s[pos] as int + 0x100 * (s[pos + 1] as int)
  }

  function Four(s: seq<Byte>, pos: nat): nat
    requires pos + 4 <= |s|
  {
    Two(s, pos) + 0x1_0000 * Two(s, pos + 2)
  }

  function Eight(s: seq<Byte>, pos: nat): nat
    requires pos + 8 <= |s|
  {
    Four(s, pos) + 0x1_0000_0000 * Four(s, pos + 4)
  }

  lemma LittleTwo(s: seq<Byte>, pos: nat)
    requires pos + 2 <= |s|
    ensures Little(s[pos..pos + 2]) == Two(s, pos)
  {
    assert s[pos..pos + 2][1..] == s[pos + 1..pos + 2];
    assert s[pos + 1..pos + 2][1..] == [];
  }

  lemma Scales(low: nat, x: nat, p: nat, y: nat)
    ensures low + 0x100 * (x + p * y) == (low + 0x100 * x) + (0x100 * p) * y
  {
    assert 0x100 * (p * y) == (0x100 * p) * y;
  }

  lemma {:induction false} LittleSplit(a: seq<Byte>, b: seq<Byte>)
    ensures Little(a + b) == Little(a) + Pow256(|a|) * Little(b)
  {
    if a == [] {
      assert a + b == b;
    } else {
      assert (a + b)[1..] == a[1..] + b && (a + b)[0] == a[0];
      LittleSplit(a[1..], b);
      Scales(a[0], Little(a[1..]), Pow256(|a| - 1), Little(b));
      assert Little(a + b) == a[0] as int + 0x100 * Little(a[1..] + b);
    }
  }

  lemma LittleFour(s: seq<Byte>, pos: nat)
    requires pos + 4 <= |s|
    ensures Little(s[pos..pos + 4]) == Four(s, pos)
  {
    LittleTwo(s, pos);
    LittleTwo(s, pos + 2);
    Powers(2);
    LittleSplit(s[pos..pos + 2], s[pos + 2..pos + 4]);
    assert s[pos..pos + 2] + s[pos + 2..pos + 4] == s[pos..pos + 4];
  }

  lemma LittleEight(s: seq<Byte>, pos: nat)
    requires pos + 8 <= |s|
    ensures Little(s[pos..pos + 8]) == Eight(s, pos)
  {
    LittleFour(s, pos);
    LittleFour(s, pos + 4);
    Powers(4);
    LittleSplit(s[pos..pos + 4], s[pos + 4..pos + 8]);
    assert s[pos..pos + 4] + s[pos + 4..pos + 8] == s[pos..pos + 8];
  }

  // The codes of fixed size, by their low four bits: how many bytes are read, and that the signed ones
  // are extended to 64 bits.
  lemma ReadsFixedCodes(code: Byte, s: seq<Byte>, pos: nat)
    ensures code % 0x10 == 0x2 ==> ReadEncoded(code, s, pos) == if pos + 2 <= |s| then Some((Two(s, pos), pos + 2)) else None
    ensures code % 0x10 == 0x3 ==> ReadEncoded(code, s, pos) == if pos + 4 <= |s| then Some((Four(s, pos), pos + 4)) else None
    ensures code % 0x10 == 0x4 || code % 0x10 == 0xc || code % 0x10 == 0x0 ==>
      ReadEncoded(code, s, pos) == if pos + 8 <= |s| then Some((Eight(s, pos), pos + 8)) else None
    ensures code % 0x10 == 0xa ==>
      ReadEncoded(code, s, pos) ==
        if pos + 2 > |s| then None
        else Some((if s[pos + 1] < 0x80 then Two(s, pos) else 0xffff_ffff_ffff_0000 + Two(s, pos), pos + 2))
    ensures code % 0x10 == 0xb ==>
      ReadEncoded(code, s, pos) ==
        if pos + 4 > |s| then None
        else Some((if s[pos + 3] < 0x80 then Four(s, pos) else 0xffff_ffff_0000_0000 + Four(s, pos), pos + 4))
  {
    if pos + 2 <= |s| {
      LittleTwo(s, pos);
    }
    if pos + 4 <= |s| {
      LittleFour(s, pos);
    }
    if pos + 8 <= |s| {
      LittleEight(s, pos);
      Powers(8);
    }
  }

  // The codes of LEB128 numbers, and all others.
  lemma ReadsOtherCodes(code: Byte, s: seq<Byte>, pos: nat, n: int)
    ensures code % 0x10 == 0x1 && 0 <= n < 0x8000_0000 && StandsAt(s, pos, EncodeU(n)) ==>
      ReadEncoded(code, s, pos) == Some((n, pos + |EncodeU(n)|))
    ensures code % 0x10 == 0x9 && -0x800_0000 <= n < 0x8000_0000 && StandsAt(s, pos, EncodeS(n)) ==>
      ReadEncoded(code, s, pos) == Some((if n < 0 then n + 0x1_0000_0000_0000_0000 else n, pos + |EncodeS(n)|))
    ensures code % 0x10 in {0x5, 0x6, 0x7, 0x8, 0xd, 0xe, 0xf} ==> ReadEncoded(code, s, pos) == None
  {
    if 0 <= n && StandsAt(s, pos, EncodeU(n)) {
      DecodesU(s, pos, n, 0, 0, n, true);
    }
    if StandsAt(s, pos, EncodeS(n)) {
      DecodesS(s, pos, n, 0, 0, n, true);
    }
  }
}
