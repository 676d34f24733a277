// __gxx_personality_v0 of src/exception.cc for native exceptions: what it answers for one frame in
// each phase, and what it caches in the header of the exception.
module Personality {
  import opened Lists
  import opened Leb128
  import opened Actions
  import opened Lsda
  import opened ActionTable

  // The fields of a header that carry results from the search to the handler.
  datatype Cache = Cache(switchValue: int, catchTemp: int, adjustedPtr: int)

  // What the tables say about a frame that is being unwound: no tables, no record for the call,
  // or a landing pad (zero for none) and a chain of actions.
  datatype Place = NoTables | NoRecord | Site(pad: int, chain: Option<seq<Action>>)

  datatype Reason = Continue | HandlerFound | Install(pad: int, selector: int) | Terminate

  // The search phase. A frame without a record reports a handler but caches nothing.
  function Search(c: Cache, ex: Thrown, place: Place): (Cache, Reason) {
    match place
    case NoTables => (c, Continue)
    case NoRecord => (c, HandlerFound)
    case Site(pad, chain) =>
      var v := Check(ex, chain, c.adjustedPtr);
      if v.handler.CatchHandler? then (Cache(v.selector, pad, v.adjusted), HandlerFound)
      else (c.(adjustedPtr := v.adjusted), Continue)
  }

  // The cleanup phase, for the frames before the handler frame.
  function Clean(c: Cache, ex: Thrown, place: Place): (Cache, Reason) {
    match place
    case NoTables => (c, Continue)
    case NoRecord => (c, Continue)
    case Site(pad, chain) =>
      if pad == 0 then (c, Continue)
      else
        var v := Check(ex, chain, c.adjustedPtr);
        (c.(adjustedPtr := v.adjusted), if v.handler.CleanupHandler? then Install(pad, v.selector) else Continue)
  }

  // The handler frame.
  function Handle(c: Cache): (Cache, Reason) {
    if c.catchTemp == 0 then (c, Terminate) else (c.(catchTemp := 0, switchValue := 0), Install(c.catchTemp, c.switchValue))
  }

  // ----- The function itself, on the bytes of the tables -----

  // The tables of a function: its language-specific data area, where it starts, and the start of the
  // function.
  datatype Tables = Tables(bytes: seq<Byte>, start: nat, region: nat)

  // A frame: its tables, if any, and the offset of the instruction after the call.
  datatype Context = Context(tables: Option<Tables>, ip: nat)

  function AreaOf(t: Tables): Option<Area> {
    Parse(t.bytes, t.start, t.region)
  }

  // The tables say this about the frame; records are those of the action chain.
  ghost predicate Describes(frame: Context, records: seq<Record>, place: Place) {
    match frame.tables
    case None => place == NoTables
    case Some(t) => AreaOf(t).Some? && DescribesIn(AreaOf(t).value, frame.ip, records, place)
  }

  ghost predicate DescribesIn(a: Area, ip: nat, records: seq<Record>, place: Place) {
    match FindFrom(a, ip, a.callSites)
    case Garbled => false
    case Missing => place == NoRecord
    case Found(pad, action) =>
      && Chained(a, action, records)
      && (forall r :: r in records ==> Readable(a, r))
      && place == Site(pad, if action.None? then None else Some(DecodeAll(a, records)))
  }

  datatype Phase = SearchPhase | CleanupPhase | HandlerFrame

  // What each phase answers and caches for a frame.
  function Answer(phase: Phase, c: Cache, ex: Thrown, place: Place): (Cache, Reason) {
    match phase
    case SearchPhase => Search(c, ex, place)
    case CleanupPhase => Clean(c, ex, place)
    case HandlerFrame => if place.NoTables? then (c, Continue) else Handle(c)
  }

  class ExceptionHeader {
    var handlerSwitchValue: int
    var catchTemp: int
    var adjustedPtr: int

    function Cached(): Cache
      reads this
    {
      Cache(handlerSwitchValue, catchTemp, adjustedPtr)
    }

    // The allocator hands out zeroed memory.
    constructor ()
      ensures Cached() == Cache(0, 0, 0)
    {
      handlerSwitchValue, catchTemp, adjustedPtr := 0, 0, 0;
    }

    // ex is the type and the object of the real exception behind this header. The tables are parsed
    // anew in each phase.
    method Personality(phase: Phase, frame: Context, ex: Thrown, ghost records: seq<Record>, ghost place: Place) returns (r: Reason)
      requires Describes(frame, records, place)
      modifies this
      ensures (Cached(), r) == Answer(phase, old(Cached()), ex, place)
    {
      if frame.tables.None? {
        return Continue;
      }
      if phase.SearchPhase? {
        r := SearchTables(AreaOf(frame.tables.value).value, frame.ip, ex, records, place);
      } else if phase.CleanupPhase? {
        r := CleanTables(AreaOf(frame.tables.value).value, frame.ip, ex, records, place);
      } else if catchTemp == 0 {
        r := Terminate;
      } else {
        r := Install(catchTemp, handlerSwitchValue);
        catchTemp := 0;
        handlerSwitchValue := 0;
      }
    }

    method SearchTables(a: Area, ip: nat, ex: Thrown, ghost records: seq<Record>, ghost place: Place) returns (r: Reason)
      requires DescribesIn(a, ip, records, place)
      modifies this
      ensures (Cached(), r) == Search(old(Cached()), ex, place)
    {
      var site := FindCallSite(a, ip);
      if site.Missing? {
        return HandlerFound;
      }
      var v := CheckActionRecord(a, site.action, ex, adjustedPtr, records);
      adjustedPtr := v.adjusted;
      if v.handler.CatchHandler? {
        handlerSwitchValue := v.selector;
        catchTemp := site.landingPad;
        return HandlerFound;
      }
      return Continue;
    }

    method CleanTables(a: Area, ip: nat, ex: Thrown, ghost records: seq<Record>, ghost place: Place) returns (r: Reason)
      requires DescribesIn(a, ip, records, place)
      modifies this`adjustedPtr
      ensures (Cached(), r) == Clean(old(Cached()), ex, place)
    {
      var site := FindCallSite(a, ip);
      if site.Missing? || site.landingPad == 0 {
        return Continue;
      }
      var v := CheckActionRecord(a, site.action, ex, adjustedPtr, records);
      adjustedPtr := v.adjusted;
      return if v.handler.CleanupHandler? then Install(site.landingPad, v.selector) else Continue;
    }
  }
}
