// Whole exception tables as a compiler writes them, and what the personality function reads there.
module EncodedTables {
  import opened Lists
  import opened Leb128
  import opened Actions
  import opened Lsda
  import opened CallSites
  import opened ActionTable
  import opened Personality

  // What an action record is written for: a catch clause for a type of the type table, counted from
  // 1; an exception specification with a list of such types; or a cleanup.
  datatype Clause = ForType(filter: nat) | ForSpec(filters: seq<Byte>) | ForCleanup

  predicate FiltersOk(types: seq<TypeId>, filters: seq<Byte>) {
    forall i :: 0 <= i < |filters| ==> 0 < filters[i] <= |types|
  }

  // A record and what stands for it beyond the action table.
  ghost predicate ClauseAt(a: Area, types: seq<TypeId>, r: Record, c: Clause) {
    && FitsSigned(r.filter, true) && FitsSigned(r.displacement, true)
    && match c
      case ForType(filter) => r.filter == filter && 0 < filter <= |types|
      case ForSpec(filters) => r.filter < 0 && FiltersOk(types, filters) && StandsAt(a.bytes, a.types - r.filter - 1, filters + [0])
      case ForCleanup => r.filter == 0
  }

  predicate ClauseFits(types: seq<TypeId>, r: Record, c: Clause) {
    match c
    case ForType(filter) => r.filter == filter && 0 < filter <= |types|
    case ForSpec(filters) => FiltersOk(types, filters)
    case ForCleanup => true
  }

  // The action meant.
  function Meant(types: seq<TypeId>, r: Record, c: Clause): Action
    requires ClauseFits(types, r, c)
  {
    match c
    case ForType(filter) => Catch(r.filter, types[filter - 1])
    case ForSpec(filters) => Spec(r.filter, seq(|filters|, i requires 0 <= i < |filters| => types[filters[i] - 1]))
    case ForCleanup => Cleanup
  }

  function MeantAll(types: seq<TypeId>, records: seq<Record>, clauses: seq<Clause>): seq<Action>
    requires |records| == |clauses| && forall i :: 0 <= i < |records| ==> ClauseFits(types, records[i], clauses[i])
  {
    if records == [] then [] else [Meant(types, records[0], clauses[0])] + MeantAll(types, records[1..], clauses[1..])
  }

  // A chain of these records and clauses stands in the tables, its first record at this position. The
  // displacement to the next one counts from where it stands itself, right after the filter.
  ghost predicate ChainAt(a: Area, types: seq<TypeId>, record: Option<int>, records: seq<Record>, clauses: seq<Clause>)
    decreases |records|
  {
    match record
    case None => records == [] && clauses == []
    case Some(pos) =>
      && records != [] && clauses != [] && pos >= 0 && ClauseAt(a, types, records[0], clauses[0])
      && StandsAt(a.bytes, pos, EncodeS(records[0].filter) + EncodeS(records[0].displacement))
      && var next := pos + |EncodeS(records[0].filter)| + records[0].displacement;
        ChainAt(a, types, if records[0].displacement == 0 then None else Some(next), records[1..], clauses[1..])
  }

  lemma SpecReads(a: Area, types: seq<TypeId>, filter: int, filters: seq<Byte>)
    requires TypesAt(a, types) && filter < 0 && FiltersOk(types, filters) && StandsAt(a.bytes, a.types - filter - 1, filters + [0])
    ensures SpecTypes(a, filter) == Some(seq(|filters|, i requires 0 <= i < |filters| => types[filters[i] - 1]))
  {
    SpecNames(a, types, a.types - filter - 1, filters);
    assert SpecTypes(a, filter).value == seq(|filters|, i requires 0 <= i < |filters| => types[filters[i] - 1]);
  }

  lemma ClauseReads(a: Area, types: seq<TypeId>, r: Record, c: Clause)
    requires TypesAt(a, types) && ClauseAt(a, types, r, c)
    ensures ClauseFits(types, r, c) && Readable(a, r) && Decode(a, r) == Meant(types, r, c)
  {
    match c
    case ForType(filter) => EntryNames(a, types, filter);
    case ForSpec(filters) => SpecReads(a, types, r.filter, filters);
    case ForCleanup =>
  }

  lemma {:induction false} ChainReads(a: Area, types: seq<TypeId>, record: Option<int>, records: seq<Record>, clauses: seq<Clause>)
    requires TypesAt(a, types) && ChainAt(a, types, record, records, clauses)
    ensures |records| == |clauses| && forall i :: 0 <= i < |records| ==> ClauseFits(types, records[i], clauses[i])
    ensures Chained(a, record, records) && forall r :: r in records ==> Readable(a, r)
    ensures DecodeAll(a, records) == MeantAll(types, records, clauses)
    decreases |records|
  {
    if record.Some? {
      ClauseReads(a, types, records[0], clauses[0]);
      ChainReads(a, types, Next(record.value, records[0]), records[1..], clauses[1..]);
    }
  }

  // Where the chain of a call site starts.
  function FirstRecord(a: Area, c: CallSite): Option<int> {
    if c.action != 0 then Some(a.actions + c.action - 1) else None
  }

  // What a call site with this chain means.
  function MeantPlace(a: Area, c: CallSite, types: seq<TypeId>, records: seq<Record>, clauses: seq<Clause>): Place
    requires |records| == |clauses| && forall i :: 0 <= i < |records| ==> ClauseFits(types, records[i], clauses[i])
  {
    Place.Site(if c.pad != 0 then a.landingPads + c.pad else 0,
      if c.action != 0 then Some(MeantAll(types, records, clauses)) else None)
  }

  lemma AreaDescribes(a: Area, sites: seq<CallSite>, ip: nat, i: nat, types: seq<TypeId>, records: seq<Record>, clauses: seq<Clause>)
    requires Holds(a, sites) && i < |sites| && Covers(sites[i], ip)
    requires TypesAt(a, types) && ChainAt(a, types, FirstRecord(a, sites[i]), records, clauses)
    ensures |records| == |clauses| && forall k :: 0 <= k < |records| ==> ClauseFits(types, records[k], clauses[k])
    ensures DescribesIn(a, ip, records, MeantPlace(a, sites[i], types, records, clauses))
  {
    FindsCallSite(a, sites, ip, i);
    ChainReads(a, types, FirstRecord(a, sites[i]), records, clauses);
  }

  // A header and a call-site table stand in these tables.
  ghost predicate HeaderAt(t: Tables, h: Header, sites: seq<CallSite>) {
    && HeaderOk(h) && (forall c :: c in sites ==> SiteOk(GetEncoding(h.sites).value, c)) && Sorted(sites)
    && var table := EncodeSites(GetEncoding(h.sites).value, sites);
      |table| < TWO_31 && StandsAt(t.bytes, t.start, EncodeHeader(h, |table|) + table)
  }

  // The area behind them.
  function AreaMeant(t: Tables, h: Header, sites: seq<CallSite>): Area
    requires HeaderOk(h)
  {
    HeaderArea(t.bytes, t.start, t.region, h, |EncodeSites(GetEncoding(h.sites).value, sites)|)
  }

  // For every encoded header, sorted call-site table, action chain and type table: at an ip that a
  // record covers, the personality function reads the landing pad and the actions meant.
  lemma EncodedDescribes(t: Tables, h: Header, sites: seq<CallSite>, ip: nat, i: nat,
      types: seq<TypeId>, records: seq<Record>, clauses: seq<Clause>)
    requires HeaderAt(t, h, sites) && i < |sites| && Covers(sites[i], ip)
    requires var a := AreaMeant(t, h, sites); TypesAt(a, types) && ChainAt(a, types, FirstRecord(a, sites[i]), records, clauses)
    ensures |records| == |clauses| && forall k :: 0 <= k < |records| ==> ClauseFits(types, records[k], clauses[k])
    ensures Describes(Context(Some(t), ip), records, MeantPlace(AreaMeant(t, h, sites), sites[i], types, records, clauses))
  {
    ParsesHeader(t.bytes, t.start, t.region, h, sites);
    AreaDescribes(AreaMeant(t, h, sites), sites, ip, i, types, records, clauses);
  }

  // At an ip that no record covers, before the start of some record, it reads that there is none.
  lemma EncodedMisses(t: Tables, h: Header, sites: seq<CallSite>, ip: nat, k: nat)
    requires HeaderAt(t, h, sites) && (forall c :: c in sites ==> !Covers(c, ip)) && k < |sites| && ip < sites[k].start
    ensures Describes(Context(Some(t), ip), [], NoRecord)
  {
    ParsesHeader(t.bytes, t.start, t.region, h, sites);
    MissesCallSite(AreaMeant(t, h, sites), sites, ip, k);
  }
}
