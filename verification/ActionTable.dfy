// The action table and the type table of a language-specific data area, walked byte by byte as
// check_action_record in src/exception.cc does, and the header in front of them.
//
// A type is named by the entry that stands for it in the type table, before any indirection.
//
// `== true` after a predicate keeps Dafny from taking it apart into its conjuncts, which is slow.
module ActionTable {
  import opened Lists
  import opened Leb128
  import opened Actions
  import opened Lsda
  import opened CallSites

  // get_type_info_entry
  function TypeEntry(a: Area, filter: int): Option<TypeId> {
    match FixedSize(a.typeEncoding)
    case None => None
    case Some(size) =>
      var record := a.types - size * filter;
      if record < 0 then None
      else
        match ReadValue(a.typeEncoding, a.bytes, record)
        case None => None
        case Some((value, _)) => Some(value)
  }

  // The types of an exception specification: one-byte filters up to a zero byte.
  function SpecFrom(a: Area, pos: int): Option<seq<TypeId>>
    decreases |a.bytes| - pos
  {
    if pos < 0 || pos >= |a.bytes| then None
    else if a.bytes[pos] == 0 then Some([])
    else
      match TypeEntry(a, a.bytes[pos])
      case None => None
      case Some(ty) =>
        match SpecFrom(a, pos + 1)
        case None => None
        case Some(rest) => Some([ty] + rest)
  }

  function SpecTypes(a: Area, filter: int): Option<seq<TypeId>> {
    SpecFrom(a, a.types - filter - 1)
  }

  // ----- Encoded chains -----

  datatype Record = Record(filter: int, displacement: int)

  predicate Readable(a: Area, r: Record) {
    && FitsSigned(r.filter, true) && FitsSigned(r.displacement, true)
    && (r.filter > 0 ==> TypeEntry(a, r.filter).Some?)
    && (r.filter < 0 ==> SpecTypes(a, r.filter).Some?)
  }

  // The action that a record stands for.
  function Decode(a: Area, r: Record): Action
    requires Readable(a, r)
  {
    if r.filter > 0 then Catch(r.filter, TypeEntry(a, r.filter).value)
    else if r.filter < 0 then Spec(r.filter, SpecTypes(a, r.filter).value)
    else Cleanup
  }

  function DecodeAll(a: Area, chain: seq<Record>): seq<Action>
    requires forall r :: r in chain ==> Readable(a, r)
  {
    if chain == [] then [] else [Decode(a, chain[0])] + DecodeAll(a, chain[1..])
  }

  // The displacement counts from its own position; zero ends the chain.
  function Next(pos: nat, r: Record): Option<int> {
    if r.displacement == 0 then None else Some(pos + |EncodeS(r.filter)| + r.displacement)
  }

  // The records of this chain stand in the action table, the first at this position.
  ghost predicate Chained(a: Area, record: Option<int>, chain: seq<Record>)
    decreases |chain|
  {
    match record
    case None => chain == []
    case Some(pos) =>
      && chain != [] && pos >= 0 && Readable(a, chain[0])
      && StandsAt(a.bytes, pos, EncodeS(chain[0].filter) + EncodeS(chain[0].displacement))
      && Chained(a, Next(pos, chain[0]), chain[1..])
  }

  lemma {:induction false} ChainedReadable(a: Area, record: Option<int>, chain: seq<Record>)
    requires Chained(a, record, chain)
    ensures forall r :: r in chain ==> Readable(a, r)
    decreases |chain|
  {
    if record.Some? {
      ChainedReadable(a, Next(record.value, chain[0]), chain[1..]);
    }
  }

  lemma ReadsSigned(s: seq<Byte>, pos: nat, n: int)
    requires StandsAt(s, pos, EncodeS(n)) && FitsSigned(n, true)
    ensures ReadSleb(s, pos, true) == Some((n, pos + |EncodeS(n)|))
  {
    DecodesS(s, pos, n, 0, 0, n, true);
  }

  lemma ReadsRecord(a: Area, pos: nat, r: Record)
    requires Readable(a, r) && StandsAt(a.bytes, pos, EncodeS(r.filter) + EncodeS(r.displacement))
    ensures ReadSleb(a.bytes, pos, true) == Some((r.filter, pos + |EncodeS(r.filter)|))
    ensures ReadSleb(a.bytes, pos + |EncodeS(r.filter)|, true).Some?
    ensures ReadSleb(a.bytes, pos + |EncodeS(r.filter)|, true).value.0 == r.displacement
  {
    StandsSplit(a.bytes, pos, EncodeS(r.filter), EncodeS(r.displacement));
    ReadsSigned(a.bytes, pos, r.filter);
    ReadsSigned(a.bytes, pos + |EncodeS(r.filter)|, r.displacement);
  }

  // ----- The walk -----

  // Goes through the types of a specification until one matches.
  method MatchSpec(a: Area, filter: int, ex: Thrown) returns (found: Option<int>)
    requires SpecTypes(a, filter).Some?
    ensures found == FirstOf(ex, SpecTypes(a, filter).value)
  {
    var pos := a.types - filter - 1;
    while a.bytes[pos] != 0
      invariant 0 <= pos < |a.bytes| && SpecFrom(a, pos).Some?
      invariant FirstOf(ex, SpecTypes(a, filter).value) == FirstOf(ex, SpecFrom(a, pos).value)
      decreases |a.bytes| - pos
    {
      var ty := TypeEntry(a, a.bytes[pos]).value;
      ghost var rest := SpecFrom(a, pos + 1).value;
      assert SpecFrom(a, pos).value == [ty] + rest && ([ty] + rest)[1..] == rest;
      pos := pos + 1;
      var view := Signature(ex, ty);
      if view.Some? {
        return view;
      }
    }
    return None;
  }

  lemma WrapFits(n: int)
    requires FitsSigned(n, true)
    ensures Wrap32(n) == n
  {
  }

  // Reads one record: its filter, and where the next one is.
  method ReadRecord(a: Area, pos: nat, ghost r: Record) returns (filter: int, next: Option<int>)
    requires Readable(a, r) && StandsAt(a.bytes, pos, EncodeS(r.filter) + EncodeS(r.displacement))
    ensures filter == r.filter && next == Next(pos, r)
  {
    ReadsRecord(a, pos, r);
    WrapFits(r.filter);
    WrapFits(r.displacement);
    var (number, base) := ReadSleb(a.bytes, pos, true).value;
    var displacement := Wrap32(ReadSleb(a.bytes, base, true).value.0);
    filter := Wrap32(number);
    next := if displacement != 0 then Some(base + displacement) else None;
  }

  lemma WalkCons(ex: Thrown, a: Action, rest: seq<Action>, v: Verdict)
    ensures Walk(ex, [a] + rest, v) ==
      if Stops(ex, a) then Verdict(CatchHandler, a.filter, Adjust(ex, a, v.adjusted))
      else Walk(ex, rest, Verdict(if a.Cleanup? then CleanupHandler else v.handler, Select(a, v.selector), Adjust(ex, a, v.adjusted)))
  {
    assert ([a] + rest)[1..] == rest;
  }

  // What the action record at a position does with the exception.
  method CheckActionRecord(a: Area, first: Option<nat>, ex: Thrown, adjustedPtr: int, ghost chain: seq<Record>)
    returns (v: Verdict)
    requires Chained(a, first, chain)
    ensures forall r :: r in chain ==> Readable(a, r)
    ensures v == Check(ex, if first.None? then None else Some(DecodeAll(a, chain)), adjustedPtr)
  {
    ChainedReadable(a, first, chain);
    if first.None? {
      return Verdict(CleanupHandler, 0, adjustedPtr);
    }
    var record: Option<int>, found, selector, adjusted := first, NoHandler, 0, adjustedPtr;
    ghost var rest := chain;
    while record.Some?
      invariant Chained(a, record, rest) == true
      invariant forall r :: r in rest ==> Readable(a, r)
      invariant Walk(ex, DecodeAll(a, chain), Verdict(NoHandler, 0, adjustedPtr))
        == Walk(ex, DecodeAll(a, rest), Verdict(found, selector, adjusted))
      decreases |rest|
    {
      ghost var r := rest[0];
      WalkCons(ex, Decode(a, r), DecodeAll(a, rest[1..]), Verdict(found, selector, adjusted));
      var filter, next := ReadRecord(a, record.value, r);
      record := next;
      rest := rest[1..];
      if filter > 0 {
        var view := Signature(ex, TypeEntry(a, filter).value);
        if view.Some? {
          return Verdict(CatchHandler, filter, view.value);
        }
      } else if filter < 0 {
        selector := filter;
        var allowed := MatchSpec(a, filter, ex);
        if allowed.None? {
          return Verdict(CatchHandler, selector, adjusted);
        }
        adjusted := allowed.value;
      } else {
        selector := filter;
        found := CleanupHandler;
      }
    }
    return Verdict(found, selector, adjusted);
  }

  // ----- The header -----

  const OMIT: Byte := 0xff

  // An encoded value, or the given one if it is omitted. Only plain values are modelled.
  function ReadOptional(s: seq<Byte>, pos: nat, given: nat): Option<(nat, nat)> {
    if pos >= |s| then None
    else if s[pos] == OMIT then Some((given, pos + 1))
    else if s[pos] >= 0x10 || GetEncoding(s[pos]).None? then None
    else ReadValue(GetEncoding(s[pos]).value, s, pos + 1)
  }

  // The end of the type table, if there is one, and the encoding of its entries. Without a type
  // table the end is the null address.
  function ReadTypes(s: seq<Byte>, pos: nat): Option<(Encoding, int, nat)> {
    if pos >= |s| then None
    else if s[pos] == OMIT then Some((AbsPtr, 0, pos + 1))
    else
      match GetEncoding(s[pos])
      case None => None
      case Some(e) =>
        match ReadUleb(s, pos + 1, true)
        case None => None
        case Some((offset, p)) => Some((e, p + offset, p))
  }

  // The call-site table: the encoding of its values, where it starts and where it ends.
  function ReadTable(s: seq<Byte>, pos: nat): Option<(Encoding, nat, int)> {
    if pos >= |s| then None
    else
      match GetEncoding(s[pos])
      case None => None
      case Some(e) =>
        match ReadUleb(s, pos + 1, true)
        case None => None
        case Some((size, p)) => Some((e, p, p + size))
  }

  // parse_lsda. None also stands for an encoding that is only refused when a value is read.
  function Parse(s: seq<Byte>, start: nat, region: nat): Option<Area> {
    match ReadOptional(s, start, region)
    case None => None
    case Some((pads, p)) =>
      match ReadTypes(s, p)
      case None => None
      case Some((typeEncoding, types, q)) =>
        match ReadTable(s, q)
        case None => None
        case Some((e, first, end)) =>
          if types < 0 || end < 0 then None else Some(Area(s, e, first, end, pads, typeEncoding, types))
  }

  lemma ReadsUnsigned(s: seq<Byte>, pos: nat, n: nat)
    requires StandsAt(s, pos, EncodeU(n)) && n < TWO_31
    ensures ReadUleb(s, pos, true) == Some((n, pos + |EncodeU(n)|))
  {
    DecodesU(s, pos, n, 0, 0, n, true);
  }

  lemma ParsesTypes(s: seq<Byte>, pos: nat, e: Byte, offset: nat)
    requires GetEncoding(e).Some? && offset < TWO_31 && StandsAt(s, pos, [e] + EncodeU(offset))
    ensures var p := pos + 1 + |EncodeU(offset)|;
      ReadTypes(s, pos) == Some((GetEncoding(e).value, p + offset, p))
  {
    StandsCons(s, pos, e, EncodeU(offset));
    ReadsUnsigned(s, pos + 1, offset);
  }

  lemma ParsesTable(s: seq<Byte>, pos: nat, e: Byte, size: nat)
    requires GetEncoding(e).Some? && size < TWO_31 && StandsAt(s, pos, [e] + EncodeU(size))
    ensures var p := pos + 1 + |EncodeU(size)|;
      ReadTable(s, pos) == Some((GetEncoding(e).value, p, p + size))
  {
    StandsCons(s, pos, e, EncodeU(size));
    ReadsUnsigned(s, pos + 1, size);
  }

  // A header: the base of the landing pads, with its encoding, and the encoding of the type table with
  // the offset of its end, each of which may be missing; and the encoding of the call-site table.
  datatype Header = Header(base: Option<(Byte, nat)>, types: Option<(Byte, nat)>, sites: Byte)

  predicate HeaderOk(h: Header) {
    && (h.base.Some? ==>
        h.base.value.0 < 0x10 && GetEncoding(h.base.value.0).Some? && Encodable(GetEncoding(h.base.value.0).value, h.base.value.1))
    && (h.types.Some? ==> h.types.value.0 != OMIT && GetEncoding(h.types.value.0).Some? && h.types.value.1 < TWO_31)
    && GetEncoding(h.sites).Some?
  }

  function BaseBytes(h: Header): seq<Byte>
    requires HeaderOk(h)
  {
    match h.base
    case None => [OMIT]
    case Some((e, v)) => [e] + EncodeValue(GetEncoding(e).value, v)
  }

  function TypeBytes(h: Header): seq<Byte> {
    match h.types
    case None => [OMIT]
    case Some((e, offset)) => [e] + EncodeU(offset)
  }

  function TableBytes(h: Header, size: nat): seq<Byte> {
    [h.sites] + EncodeU(size)
  }

  function EncodeHeader(h: Header, size: nat): seq<Byte>
    requires HeaderOk(h)
  {
    BaseBytes(h) + TypeBytes(h) + TableBytes(h, size)
  }

  // The area that a header at start, with a call-site table of this size after it, stands for.
  function HeaderArea(s: seq<Byte>, start: nat, region: nat, h: Header, size: nat): Area
    requires HeaderOk(h)
  {
    var typesAt := start + |BaseBytes(h)| + |TypeBytes(h)|;
    var sitesAt := typesAt + |TableBytes(h, size)|;
    Area(s, GetEncoding(h.sites).value, sitesAt, sitesAt + size,
      if h.base.Some? then h.base.value.1 else region,
      TypeEncoding(h), TypesEnd(h, typesAt))
  }

  lemma ParsesBase(s: seq<Byte>, pos: nat, h: Header, region: nat)
    requires HeaderOk(h) && StandsAt(s, pos, BaseBytes(h))
    ensures ReadOptional(s, pos, region) == Some((if h.base.Some? then h.base.value.1 else region, pos + |BaseBytes(h)|))
  {
    match h.base
    case None => assert s[pos] == [OMIT][0];
    case Some((e, v)) =>
      StandsCons(s, pos, e, EncodeValue(GetEncoding(e).value, v));
      ReadsValue(GetEncoding(e).value, s, pos + 1, v);
  }

  function TypeEncoding(h: Header): Encoding
    requires HeaderOk(h)
  {
    if h.types.Some? then GetEncoding(h.types.value.0).value else AbsPtr
  }

  function TypesEnd(h: Header, next: nat): nat {
    if h.types.Some? then next + h.types.value.1 else 0
  }

  lemma ParsesTypeBytes(s: seq<Byte>, pos: nat, h: Header, next: nat)
    requires HeaderOk(h) && StandsAt(s, pos, TypeBytes(h)) && next == pos + |TypeBytes(h)|
    ensures ReadTypes(s, pos) == Some((TypeEncoding(h), TypesEnd(h, next), next))
  {
    match h.types
    case None => assert s[pos] == [OMIT][0];
    case Some((e, offset)) => ParsesTypes(s, pos, e, offset);
  }

  lemma ParsesParts(s: seq<Byte>, start: nat, region: nat, h: Header, size: nat, p: nat, q: nat, r: nat)
    requires HeaderOk(h)
    requires ReadOptional(s, start, region) == Some((if h.base.Some? then h.base.value.1 else region, p))
    requires ReadTypes(s, p) == Some((TypeEncoding(h), TypesEnd(h, q), q))
    requires ReadTable(s, q) == Some((GetEncoding(h.sites).value, r, r + size))
    requires p == start + |BaseBytes(h)| && q == p + |TypeBytes(h)| && r == q + |TableBytes(h, size)|
    ensures Parse(s, start, region) == Some(HeaderArea(s, start, region, h, size))
  {
  }

  lemma ParsesEncoded(s: seq<Byte>, start: nat, region: nat, h: Header, size: nat)
    requires HeaderOk(h) && size < TWO_31 && StandsAt(s, start, EncodeHeader(h, size))
    ensures Parse(s, start, region) == Some(HeaderArea(s, start, region, h, size))
  {
    var p, q := start + |BaseBytes(h)|, start + |BaseBytes(h)| + |TypeBytes(h)|;
    StandsSplit(s, start, BaseBytes(h) + TypeBytes(h), TableBytes(h, size));
    StandsSplit(s, start, BaseBytes(h), TypeBytes(h));
    ParsesBase(s, start, h, region);
    ParsesTypeBytes(s, p, h, q);
    ParsesTable(s, q, h.sites, size);
    ParsesParts(s, start, region, h, size, p, q, q + |TableBytes(h, size)|);
  }

  lemma HeaderThen(s: seq<Byte>, start: nat, region: nat, h: Header, table: seq<Byte>)
    requires HeaderOk(h) && |table| < TWO_31 && StandsAt(s, start, EncodeHeader(h, |table|) + table)
    ensures var a := HeaderArea(s, start, region, h, |table|);
      Parse(s, start, region) == Some(a) && StandsAt(s, a.callSites, table) == true && a.actions == a.callSites + |table|
  {
    StandsSplit(s, start, EncodeHeader(h, |table|), table);
    ParsesEncoded(s, start, region, h, |table|);
  }

  lemma TableHeld(a: Area, sites: seq<CallSite>, table: seq<Byte>)
    requires table == EncodeSites(a.callSiteEncoding, sites) && StandsAt(a.bytes, a.callSites, table) && a.actions == a.callSites + |table|
    requires (forall c :: c in sites ==> SiteOk(a.callSiteEncoding, c)) && Sorted(sites)
    ensures Holds(a, sites) == true
  {
  }

  // Parsing finds the tables where they are.
  lemma ParsesHeader(s: seq<Byte>, start: nat, region: nat, h: Header, sites: seq<CallSite>)
    requires HeaderOk(h) && (forall c :: c in sites ==> SiteOk(GetEncoding(h.sites).value, c)) && Sorted(sites)
    requires var table := EncodeSites(GetEncoding(h.sites).value, sites);
      |table| < TWO_31 && StandsAt(s, start, EncodeHeader(h, |table|) + table)
    ensures var a := HeaderArea(s, start, region, h, |EncodeSites(GetEncoding(h.sites).value, sites)|);
      Parse(s, start, region) == Some(a) && Holds(a, sites) == true
  {
    var table := EncodeSites(GetEncoding(h.sites).value, sites);
    HeaderThen(s, start, region, h, table);
    TableHeld(HeaderArea(s, start, region, h, |table|), sites, table);
  }

  // A type table written backwards from its end in entries of a fixed size.
  ghost predicate TypesAt(a: Area, types: seq<TypeId>) {
    && FixedSize(a.typeEncoding).Some?
    && var size := FixedSize(a.typeEncoding).value;
    && forall i: nat {:trigger types[i]} :: i < |types| ==>
        && Encodable(a.typeEncoding, types[i]) && a.types - size * (i + 1) >= 0
        && StandsAt(a.bytes, a.types - size * (i + 1), EncodeValue(a.typeEncoding, types[i]))
  }

  // A positive filter names the type at that place, counted from 1.
  lemma EntryNames(a: Area, types: seq<TypeId>, filter: nat)
    requires TypesAt(a, types) && 0 < filter <= |types|
    ensures TypeEntry(a, filter) == Some(types[filter - 1])
  {
    var ty := types[filter - 1];
    ReadsValue(a.typeEncoding, a.bytes, a.types - FixedSize(a.typeEncoding).value * filter, ty);
  }

  lemma SpecCons(a: Area, pos: nat, ty: TypeId)
    requires pos < |a.bytes| && a.bytes[pos] != 0 && TypeEntry(a, a.bytes[pos]) == Some(ty)
    ensures SpecFrom(a, pos) == match SpecFrom(a, pos + 1) case None => None case Some(rest) => Some([ty] + rest)
  {
  }

  // These types are named by these filters.
  ghost predicate Names(types: seq<TypeId>, filters: seq<Byte>, r: Option<seq<TypeId>>)
    requires forall i :: 0 <= i < |filters| ==> 0 < filters[i] <= |types|
  {
    r.Some? && |r.value| == |filters| && forall i :: 0 <= i < |filters| ==> r.value[i] == types[filters[i] - 1]
  }

  lemma NamesCons(types: seq<TypeId>, filters: seq<Byte>, rest: seq<TypeId>)
    requires filters != [] && forall i :: 0 <= i < |filters| ==> 0 < filters[i] <= |types|
    requires Names(types, filters[1..], Some(rest))
    ensures Names(types, filters, Some([types[filters[0] - 1]] + rest)) == true
  {
  }

  lemma SpecEnds(a: Area, pos: nat)
    requires StandsAt(a.bytes, pos, [0])
    ensures SpecFrom(a, pos) == Some([])
  {
    assert a.bytes[pos] == [0][0];
  }

  // The types that a list of one-byte filters names.
  lemma {:induction false} SpecNames(a: Area, types: seq<TypeId>, pos: nat, filters: seq<Byte>)
    requires TypesAt(a, types) == true && (forall i :: 0 <= i < |filters| ==> 0 < filters[i] <= |types|)
    requires StandsAt(a.bytes, pos, filters + [0])
    ensures Names(types, filters, SpecFrom(a, pos)) == true
    decreases |filters|
  {
    if filters == [] {
      assert filters + [0] == [0];
      SpecEnds(a, pos);
    } else {
      assert filters + [0] == [filters[0]] + (filters[1..] + [0]);
      StandsCons(a.bytes, pos, filters[0], filters[1..] + [0]);
      EntryNames(a, types, filters[0]);
      SpecCons(a, pos, types[filters[0] - 1]);
      SpecNames(a, types, pos + 1, filters[1..]);
      NamesCons(types, filters, SpecFrom(a, pos + 1).value);
    }
  }
}
