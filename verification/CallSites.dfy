// Encoded call-site tables, and what the scan of src/dwarf_eh.h finds in them.
//
// `== true` after a predicate keeps Dafny from taking it apart into its conjuncts, which is slow.
module CallSites {
  import opened Lists
  import opened Leb128
  import opened Lsda

  // ----- Encoded call-site tables -----

  datatype CallSite = CallSite(start: nat, size: nat, pad: nat, action: nat)

  function EncodeSite(e: Encoding, c: CallSite): seq<Byte> {
    EncodeValue(e, c.start) + EncodeValue(e, c.size) + EncodeValue(e, c.pad) + EncodeU(c.action)
  }

  function Join(rows: seq<seq<Byte>>): seq<Byte> {
    if rows == [] then [] else rows[0] + Join(rows[1..])
  }

  function EncodeSites(e: Encoding, sites: seq<CallSite>): seq<Byte> {
    Join(seq(|sites|, i requires 0 <= i < |sites| => EncodeSite(e, sites[i])))
  }

  predicate SiteOk(e: Encoding, c: CallSite) {
    && Encodable(e, c.start) && Encodable(e, c.size) && Encodable(e, c.pad) && c.action < TWO_31
    && c.start + c.size < TWO_64
  }

  // Sorted and not overlapping.
  predicate Sorted(sites: seq<CallSite>) {
    forall i, j :: 0 <= i < j < |sites| ==> sites[i].start + sites[i].size <= sites[j].start
  }

  predicate Covers(c: CallSite, ip: nat) {
    c.start < ip <= c.start + c.size
  }

  // The area holds this table.
  ghost predicate Holds(a: Area, sites: seq<CallSite>) {
    && (forall c :: c in sites ==> SiteOk(a.callSiteEncoding, c))
    && Sorted(sites)
    && StandsAt(a.bytes, a.callSites, EncodeSites(a.callSiteEncoding, sites))
    && a.actions == a.callSites + |EncodeSites(a.callSiteEncoding, sites)|
  }

  // ----- What the bytes read as -----

  ghost predicate ReadsTo(e: Encoding, s: seq<Byte>, pos: nat, v: nat, next: nat) {
    ReadValue(e, s, pos) == Some((v, next))
  }

  // Wherever these bytes stand, they read as this value.
  ghost predicate ReadsAs(e: Encoding, t: seq<Byte>, v: nat) {
    forall s: seq<Byte>, pos: nat {:trigger StandsAt(s, pos, t)} :: StandsAt(s, pos, t) ==> ReadsTo(e, s, pos, v, pos + |t|)
  }

  // Wherever they stand in the call-site table, they read as this record.
  ghost predicate Row(a: Area, t: seq<Byte>, c: CallSite) {
    forall pos: nat :: StandsAt(a.bytes, pos, t) ==> RowAt(a, c, pos, pos + |t|)
  }

  ghost predicate RowAt(a: Area, c: CallSite, pos: nat, next: nat) {
    var range := ReadRange(a, pos);
    && range.Some? && range.value.0 == c.start && range.value.1 == c.size
    && ReadTarget(a, range.value.2) == Some((c.pad, c.action, next))
  }

  lemma ReadsHere(e: Encoding, t: seq<Byte>, v: nat, s: seq<Byte>, pos: nat)
    requires ReadsAs(e, t, v) && StandsAt(s, pos, t)
    ensures ReadsTo(e, s, pos, v, pos + |t|) == true
  {
  }

  lemma RowOfReads(a: Area, c: CallSite, p0: nat, p1: nat, p2: nat, p3: nat, p4: nat)
    requires ReadsTo(a.callSiteEncoding, a.bytes, p0, c.start, p1) == true && ReadsTo(a.callSiteEncoding, a.bytes, p1, c.size, p2) == true
    requires ReadsTo(a.callSiteEncoding, a.bytes, p2, c.pad, p3) == true && ReadsTo(ULeb, a.bytes, p3, c.action, p4) == true
    ensures RowAt(a, c, p0, p4) == true
  {
  }

  lemma AtFour(s: seq<Byte>, pos: nat, t: seq<Byte>, u: seq<Byte>, v: seq<Byte>, w: seq<Byte>)
    requires StandsAt(s, pos, t + u + v + w)
    ensures StandsAt(s, pos, t) && StandsAt(s, pos + |t|, u) && StandsAt(s, pos + |t| + |u|, v) && StandsAt(s, pos + |t| + |u| + |v|, w)
  {
    StandsSplit(s, pos, t + u + v, w);
    StandsSplit(s, pos, t + u, v);
    StandsSplit(s, pos, t, u);
  }

  lemma TwoHere(s: seq<Byte>, pos: nat, e: Encoding, t: seq<Byte>, v: nat, f: Encoding, u: seq<Byte>, n: nat)
    requires ReadsAs(e, t, v) == true && ReadsAs(f, u, n) == true && StandsAt(s, pos, t) && StandsAt(s, pos + |t|, u)
    ensures ReadsTo(e, s, pos, v, pos + |t|) == true && ReadsTo(f, s, pos + |t|, n, pos + |t| + |u|) == true
  {
    ReadsHere(e, t, v, s, pos);
    ReadsHere(f, u, n, s, pos + |t|);
  }

  lemma RowHere(a: Area, c: CallSite, pos: nat, start: seq<Byte>, size: seq<Byte>, pad: seq<Byte>, action: seq<Byte>, next: nat)
    requires ReadsAs(a.callSiteEncoding, start, c.start) == true && ReadsAs(a.callSiteEncoding, size, c.size) == true
    requires ReadsAs(a.callSiteEncoding, pad, c.pad) == true && ReadsAs(ULeb, action, c.action) == true
    requires StandsAt(a.bytes, pos, start + size + pad + action) && next == pos + |start| + |size| + |pad| + |action|
    ensures RowAt(a, c, pos, next) == true
  {
    AtFour(a.bytes, pos, start, size, pad, action);
    var p1, p2, p3 := pos + |start|, pos + |start| + |size|, pos + |start| + |size| + |pad|;
    TwoHere(a.bytes, pos, a.callSiteEncoding, start, c.start, a.callSiteEncoding, size, c.size);
    TwoHere(a.bytes, p2, a.callSiteEncoding, pad, c.pad, ULeb, action, c.action);
    RowOfReads(a, c, pos, p1, p2, p3, next);
  }

  lemma RowOfValues(a: Area, c: CallSite, start: seq<Byte>, size: seq<Byte>, pad: seq<Byte>, action: seq<Byte>)
    requires ReadsAs(a.callSiteEncoding, start, c.start) == true && ReadsAs(a.callSiteEncoding, size, c.size) == true
    requires ReadsAs(a.callSiteEncoding, pad, c.pad) == true && ReadsAs(ULeb, action, c.action) == true
    ensures Row(a, start + size + pad + action, c) == true
  {
    var all := start + size + pad + action;
    forall pos: nat | StandsAt(a.bytes, pos, all) ensures RowAt(a, c, pos, pos + |all|) == true {
      RowHere(a, c, pos, start, size, pad, action, pos + |all|);
    }
  }

  lemma EncodedReadsAs(e: Encoding, v: nat)
    requires Encodable(e, v)
    ensures ReadsAs(e, EncodeValue(e, v), v) == true
  {
    forall s: seq<Byte>, pos: nat | StandsAt(s, pos, EncodeValue(e, v))
      ensures ReadsTo(e, s, pos, v, pos + |EncodeValue(e, v)|)
    {
      ReadsValue(e, s, pos, v);
    }
  }

  lemma EncodedRow(a: Area, c: CallSite)
    requires SiteOk(a.callSiteEncoding, c)
    ensures Row(a, EncodeSite(a.callSiteEncoding, c), c) == true
  {
    var e := a.callSiteEncoding;
    EncodedReadsAs(e, c.start);
    EncodedReadsAs(e, c.size);
    EncodedReadsAs(e, c.pad);
    EncodedReadsAs(ULeb, c.action);
    RowOfValues(a, c, EncodeValue(e, c.start), EncodeValue(e, c.size), EncodeValue(e, c.pad), EncodeValue(ULeb, c.action));
  }

  // The bytes from pos up to the action table read as these records.
  ghost predicate Tabled(a: Area, sites: seq<CallSite>, pos: nat)
    decreases |sites|
  {
    && pos <= a.actions
    && if sites == [] then pos == a.actions
       else exists next: nat :: pos < next && RowAt(a, sites[0], pos, next) && Tabled(a, sites[1..], next)
  }

  lemma RowStands(a: Area, t: seq<Byte>, c: CallSite, pos: nat)
    requires Row(a, t, c) == true && StandsAt(a.bytes, pos, t)
    ensures RowAt(a, c, pos, pos + |t|) == true && |t| > 0
  {
    RowLength(a, t, c, pos);
  }

  lemma RowLength(a: Area, t: seq<Byte>, c: CallSite, pos: nat)
    requires RowAt(a, c, pos, pos + |t|)
    ensures |t| > 0
  {
  }

  lemma TabledCons(a: Area, sites: seq<CallSite>, pos: nat, next: nat)
    requires sites != [] && pos < next && RowAt(a, sites[0], pos, next) == true && Tabled(a, sites[1..], next) == true
    ensures Tabled(a, sites, pos) == true
  {
  }

  lemma {:induction false} JoinedTabled(a: Area, rows: seq<seq<Byte>>, sites: seq<CallSite>, pos: nat)
    requires |rows| == |sites| && forall i :: 0 <= i < |rows| ==> Row(a, rows[i], sites[i]) == true
    requires StandsAt(a.bytes, pos, Join(rows)) && pos + |Join(rows)| == a.actions
    ensures Tabled(a, sites, pos) == true
    decreases |rows|
  {
    if rows != [] {
      var next := pos + |rows[0]|;
      StandsSplit(a.bytes, pos, rows[0], Join(rows[1..]));
      RowStands(a, rows[0], sites[0], pos);
      JoinedTabled(a, rows[1..], sites[1..], next);
      TabledCons(a, sites, pos, next);
    }
  }

  lemma EncodedTabled(a: Area, sites: seq<CallSite>, pos: nat)
    requires forall c :: c in sites ==> SiteOk(a.callSiteEncoding, c)
    requires StandsAt(a.bytes, pos, EncodeSites(a.callSiteEncoding, sites))
    requires pos + |EncodeSites(a.callSiteEncoding, sites)| == a.actions
    ensures Tabled(a, sites, pos) == true
  {
    var rows := seq(|sites|, i requires 0 <= i < |sites| => EncodeSite(a.callSiteEncoding, sites[i]));
    forall i | 0 <= i < |rows| ensures Row(a, rows[i], sites[i]) == true {
      EncodedRow(a, sites[i]);
    }
    JoinedTabled(a, rows, sites, pos);
  }

  // ----- What the scan finds -----

  // The scan over decoded records; off is the answer beyond the last one.
  function ScanSites(a: Area, sites: seq<CallSite>, ip: nat, off: Lookup): Lookup {
    if sites == [] then off
    else if sites[0].start > ip then Missing
    else if Covers(sites[0], ip) then Site(a, sites[0].pad, sites[0].action)
    else ScanSites(a, sites[1..], ip, off)
  }

  // Beyond the last record the bytes of the action table are examined as one more record.
  function RunOff(a: Area, ip: nat): Lookup {
    match Examine(a, ip, a.actions) case Stop(result) => result case Go(_) => Missing
  }

  lemma {:induction false} ScansTable(a: Area, sites: seq<CallSite>, ip: nat, pos: nat)
    requires Tabled(a, sites, pos) && forall c :: c in sites ==> c.start + c.size < TWO_64
    ensures FindFrom(a, ip, pos) == ScanSites(a, sites, ip, RunOff(a, ip))
    decreases |sites|
  {
    if sites != [] {
      assert sites[0] in sites;
      if !(sites[0].start > ip || Covers(sites[0], ip)) {
        var next: nat :| pos < next && RowAt(a, sites[0], pos, next) && Tabled(a, sites[1..], next);
        ScansTable(a, sites[1..], ip, next);
      }
    }
  }

  lemma ScansHeld(a: Area, sites: seq<CallSite>, ip: nat)
    requires Holds(a, sites)
    ensures FindFrom(a, ip, a.callSites) == ScanSites(a, sites, ip, RunOff(a, ip))
  {
    EncodedTabled(a, sites, a.callSites);
    ScansTable(a, sites, ip, a.callSites);
  }

  lemma {:induction false} ScanStops(a: Area, sites: seq<CallSite>, ip: nat, off: Lookup, i: nat)
    requires i <= |sites| && forall j :: 0 <= j < i ==> sites[j].start <= ip && !Covers(sites[j], ip)
    requires i < |sites| ==> sites[i].start > ip || Covers(sites[i], ip)
    ensures ScanSites(a, sites, ip, off) ==
      if i == |sites| then off else if sites[i].start > ip then Missing else Site(a, sites[i].pad, sites[i].action)
  {
    if i > 0 {
      ScanStops(a, sites[1..], ip, off, i - 1);
    }
  }

  // A covered ip finds the one record that covers it.
  lemma FindsCallSite(a: Area, sites: seq<CallSite>, ip: nat, i: nat)
    requires Holds(a, sites) && i < |sites| && Covers(sites[i], ip)
    ensures FindFrom(a, ip, a.callSites) == Site(a, sites[i].pad, sites[i].action)
    ensures forall j :: 0 <= j < |sites| && Covers(sites[j], ip) ==> j == i
  {
    ScansHeld(a, sites, ip);
    ScanStops(a, sites, ip, RunOff(a, ip), i);
  }

  // An ip that no record covers and that lies before the start of some record finds none.
  lemma MissesCallSite(a: Area, sites: seq<CallSite>, ip: nat, k: nat)
    requires Holds(a, sites) && (forall c :: c in sites ==> !Covers(c, ip))
    requires k < |sites| && ip < sites[k].start
    ensures FindFrom(a, ip, a.callSites) == Missing
  {
    var i: nat := 0;
    while sites[i].start <= ip
      invariant i <= k
      invariant forall j :: 0 <= j < i ==> sites[j].start <= ip
      decreases k - i
    {
      i := i + 1;
    }
    ScansHeld(a, sites, ip);
    ScanStops(a, sites, ip, RunOff(a, ip), i);
  }

  // For every other ip the scan runs off the end of the table.
  lemma RunsOff(a: Area, sites: seq<CallSite>, ip: nat)
    requires Holds(a, sites) && forall c :: c in sites ==> !Covers(c, ip) && c.start <= ip
    ensures FindFrom(a, ip, a.callSites) == RunOff(a, ip)
  {
    ScansHeld(a, sites, ip);
    ScanStops(a, sites, ip, RunOff(a, ip), |sites|);
  }

  // The scan answers what the table asks for.
  ghost predicate Scans(a: Area, sites: seq<CallSite>, ip: nat) {
    var r := FindFrom(a, ip, a.callSites);
    || (r == Missing && forall c :: c in sites ==> !Covers(c, ip))
    || (exists c :: c in sites && Covers(c, ip) && r == Site(a, c.pad, c.action))
  }

  lemma AnswersWithin(a: Area, sites: seq<CallSite>, ip: nat)
    requires Holds(a, sites) && exists c :: c in sites && (Covers(c, ip) || ip < c.start)
    ensures Scans(a, sites, ip)
  {
    if c :| c in sites && Covers(c, ip) {
      var i :| 0 <= i < |sites| && sites[i] == c;
      FindsCallSite(a, sites, ip, i);
    } else {
      var c :| c in sites && ip < c.start;
      var k :| 0 <= k < |sites| && sites[k] == c;
      MissesCallSite(a, sites, ip, k);
    }
  }

  lemma HoldsLonger(a: Area, sites: seq<CallSite>, tail: seq<Byte>)
    requires Holds(a, sites)
    ensures Holds(a.(bytes := a.bytes + tail), sites)
  {
    var b := a.(bytes := a.bytes + tail);
    assert b.bytes[a.callSites..a.actions] == a.bytes[a.callSites..a.actions];
  }

  // The scan gives the right answer whatever the action table holds exactly when some record
  // covers ip or starts after it.
  lemma ScanExact(a: Area, sites: seq<CallSite>, ip: nat)
    requires Holds(a, sites) && a.actions == |a.bytes|
    ensures (forall tail: seq<Byte> :: Scans(a.(bytes := a.bytes + tail), sites, ip))
      <==> exists c :: c in sites && (Covers(c, ip) || ip < c.start)
  {
    if exists c :: c in sites && (Covers(c, ip) || ip < c.start) {
      forall tail: seq<Byte> ensures Scans(a.(bytes := a.bytes + tail), sites, ip) {
        HoldsLonger(a, sites, tail);
        AnswersWithin(a.(bytes := a.bytes + tail), sites, ip);
      }
    } else {
      RunsOff(a, sites, ip);
      assert ReadRange(a, a.actions).None?;
      assert a.bytes + [] == a.bytes && a.(bytes := a.bytes + []) == a;
    }
  }

  lemma RowRunsInto(a: Area, ip: nat, c: CallSite, tail: seq<Byte>)
    requires Row(a, tail, c) == true && StandsAt(a.bytes, a.actions, tail) && Covers(c, ip) && c.start + c.size < TWO_64
    ensures RunOff(a, ip) == Site(a, c.pad, c.action)
  {
    RowStands(a, tail, c, a.actions);
    RowExamined(a, c, ip, a.actions, a.actions + |tail|);
  }

  lemma RunsIntoRow(a: Area, sites: seq<CallSite>, ip: nat, c: CallSite, tail: seq<Byte>)
    requires Holds(a, sites) && forall r :: r in sites ==> !Covers(r, ip) && r.start <= ip
    requires Row(a, tail, c) == true && StandsAt(a.bytes, a.actions, tail) && Covers(c, ip) && c.start + c.size < TWO_64
    ensures FindFrom(a, ip, a.callSites) == Site(a, c.pad, c.action)
  {
    RunsOff(a, sites, ip);
    RowRunsInto(a, ip, c, tail);
  }

  // For every table and every ip that no record covers or starts after: if the action table starts
  // with bytes that spell a record covering ip, the scan finds it, landing pad and all.
  lemma RunsInto(a: Area, sites: seq<CallSite>, ip: nat, c: CallSite)
    requires Holds(a, sites) && forall r :: r in sites ==> !Covers(r, ip) && r.start <= ip
    requires SiteOk(a.callSiteEncoding, c) && Covers(c, ip)
    requires StandsAt(a.bytes, a.actions, EncodeSite(a.callSiteEncoding, c)) == true
    ensures FindFrom(a, ip, a.callSites) == Site(a, c.pad, c.action)
  {
    EncodedRow(a, c);
    RunsIntoRow(a, sites, ip, c, EncodeSite(a.callSiteEncoding, c));
  }

  lemma RowExamined(a: Area, c: CallSite, ip: nat, pos: nat, next: nat)
    requires RowAt(a, c, pos, next) && Covers(c, ip) && c.start + c.size < TWO_64
    ensures Examine(a, ip, pos) == Stop(Site(a, c.pad, c.action))
  {
  }

  // A table of one record for addresses 1 to 4 and an action table of one record. At address 10,
  // which no record covers, the action table is taken for a record and gives a landing pad.
  const TABLE := Area([0, 4, 7, 1, 5, 0x7d, 3, 1], ULeb, 0, 4, 1000, AbsPtr, 8)

  const ROW := CallSite(0, 4, 7, 1)

  lemma TableHolds()
    ensures Holds(TABLE, [ROW])
  {
    assert EncodeSite(ULeb, ROW) == [0] + [4] + [7] + [1];
    var rows := seq(1, i requires 0 <= i < 1 => EncodeSite(ULeb, [ROW][i]));
    assert EncodeSites(ULeb, [ROW]) == Join(rows) && rows[1..] == [];
    assert Join(rows) == rows[0] == [0, 4, 7, 1];
  }

  lemma TableTail(pos: nat)
    requires 4 <= pos < 8
    ensures ReadValue(ULeb, TABLE.bytes, pos) == Some((TABLE.bytes[pos], pos + 1))
  {
    ReadDigit(TABLE.bytes, pos, TABLE.bytes[pos], 0, 0, true);
  }

  lemma RunsOffWrong()
    ensures Holds(TABLE, [ROW]) && !Covers(ROW, 10) && FindFrom(TABLE, 10, 0) == Found(1003, Some(4))
  {
    TableHolds();
    RunsOff(TABLE, [ROW], 10);
    TableTail(4);
    TableTail(5);
    TableTail(6);
    TableTail(7);
    assert ReadRange(TABLE, 4) == Some((5, 0x7d, 6));
    assert ReadTarget(TABLE, 6) == Some((3, 1, 8));
  }
}
