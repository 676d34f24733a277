// Raising exceptions through stacks of frames with tables of bytes: every answer comes from the
// personality function, run in place on the headers of the exceptions.
module Unwinder {
  import opened Lists
  import opened Actions
  import opened ActionTable
  import opened Personality
  import CallSites
  import EncodedTables
  import TwoPhase

  type Id = TwoPhase.Id

  // A frame of the stack: its tables, the records of its action chain, what its tables say, and what
  // its cleanup code does.
  datatype Frame = Frame(context: Context, records: seq<Record>, place: Place, cleanup: List<Episode>)

  datatype Episode = Episode(id: Id, thrown: Thrown, frames: List<Frame>)

  // The same without the bytes.
  function Read(frames: List<Frame>): List<TwoPhase.Frame>
    decreases frames
  {
    match frames
    case Nil => Nil
    case Cons(f, rest) => Cons(TwoPhase.Frame(f.place, ReadAll(f.cleanup)), Read(rest))
  }

  function ReadEpisode(e: Episode): TwoPhase.Episode
    decreases e, 1
  {
    TwoPhase.Episode(e.id, e.thrown, Read(e.frames))
  }

  function ReadAll(program: List<Episode>): List<TwoPhase.Episode>
    decreases program
  {
    match program
    case Nil => Nil
    case Cons(e, rest) => Cons(TwoPhase.Episode(e.id, e.thrown, Read(e.frames)), ReadAll(rest))
  }

  // The tables of all frames say what is noted beside them.
  ghost predicate Described(frames: List<Frame>)
    decreases frames
  {
    match frames
    case Nil => true
    case Cons(f, rest) => Describes(f.context, f.records, f.place) && AllDescribed(f.cleanup) && Described(rest)
  }

  ghost predicate AllDescribed(program: List<Episode>)
    decreases program
  {
    match program
    case Nil => true
    case Cons(e, rest) => Described(e.frames) && AllDescribed(rest)
  }

  class Headers {
    var objects: map<Id, ExceptionHeader>

    // Every exception has a header of its own.
    ghost predicate Valid()
      reads this
    {
      forall i, j :: i in objects && j in objects && objects[i] == objects[j] ==> i == j
    }

    function Heap(): TwoPhase.Heap
      reads this, objects.Values
    {
      map id | id in objects :: objects[id].Cached()
    }

    constructor ()
      ensures Valid() && Heap() == map[] && fresh(objects.Values)
    {
      objects := map[];
    }

    // The headers there were are still there, and the others are new.
    twostate predicate Grown()
      reads this
    {
      forall id :: id in objects ==>
        if id in old(objects) then objects[id] == old(objects)[id] else fresh(objects[id])
    }

    // A zeroed header for an exception that has none yet.
    method Allocate(id: Id)
      requires Valid()
      modifies this
      ensures Valid() && id in objects && Grown() && old(objects).Keys <= objects.Keys
      ensures Heap() == old(Heap())[id := TwoPhase.CacheOf(old(Heap()), id)]
    {
      if id !in objects {
        var header := new ExceptionHeader();
        objects := objects[id := header];
      }
    }

    // One call of the personality function.
    method Ask(id: Id, phase: Phase, f: Frame, ex: Thrown) returns (r: Reason)
      requires Valid() && id in objects && Describes(f.context, f.records, f.place)
      modifies objects[id]
      ensures Valid() && Heap() == old(Heap())[id := Answer(phase, old(Heap()[id]), ex, f.place).0]
      ensures r == Answer(phase, old(Heap()[id]), ex, f.place).1
    {
      r := objects[id].Personality(phase, f.context, ex, f.records, f.place);
    }

    // The search phase.
    method Search(id: Id, ex: Thrown, frames: List<Frame>) returns (found: Option<nat>)
      requires Valid() && id in objects && Described(frames)
      modifies objects[id]
      ensures Valid()
      ensures var (c, handler) := TwoPhase.SearchFrames(old(Heap()[id]), ex, Read(frames), 0);
        Heap() == old(Heap())[id := c] && found == handler
    {
      var rest, at := frames, 0;
      while rest.Cons?
        invariant Described(rest) && Heap() == old(Heap())[id := Heap()[id]]
        invariant TwoPhase.SearchFrames(Heap()[id], ex, Read(rest), at) == TwoPhase.SearchFrames(old(Heap()[id]), ex, Read(frames), 0)
        decreases rest
      {
        var r := Ask(id, SearchPhase, rest.head, ex);
        if r.HandlerFound? {
          return Some(at);
        }
        rest, at := rest.tail, at + 1;
      }
      return None;
    }

    // The handler frame.
    method Enter(id: Id, ex: Thrown, frames: List<Frame>, at: nat) returns (events: seq<TwoPhase.Event>, done: bool)
      requires Valid() && id in objects && frames.Cons? && Described(frames) && !frames.head.place.NoTables?
      modifies objects[id]
      ensures Valid() && TwoPhase.Result(Heap(), events, done) == TwoPhase.Unwind(old(Heap()), id, ex, Read(frames), at, at)
    {
      var r := Ask(id, HandlerFrame, frames.head, ex);
      if r.Install? {
        return [TwoPhase.Landed(id, at, r.pad, r.selector)], true;
      }
      return [], false;
    }

    // The second phase up to the handler frame.
    method Unwind(id: Id, ex: Thrown, frames: List<Frame>, at: nat, handler: nat) returns (events: seq<TwoPhase.Event>, done: bool)
      requires Valid() && id in objects && Described(frames) && HandlerHasTables(frames, at, handler)
      modifies this, objects.Values
      ensures Valid() && Grown() && old(objects).Keys <= objects.Keys
      ensures TwoPhase.Result(Heap(), events, done) == TwoPhase.Unwind(old(Heap()), id, ex, Read(frames), at, handler)
      decreases frames, 2
    {
      if frames.Nil? {
        return [], false;
      }
      if at == handler {
        events, done := Enter(id, ex, frames, at);
      } else {
        events, done := Cross(id, ex, frames, at, handler);
      }
    }

    // A frame before the handler frame, and the frames after it.
    method Cross(id: Id, ex: Thrown, frames: List<Frame>, at: nat, handler: nat) returns (events: seq<TwoPhase.Event>, done: bool)
      requires Valid() && id in objects && Described(frames) && HandlerHasTables(frames, at, handler) && frames.Cons? && at != handler
      modifies this, objects.Values
      ensures Valid() && Grown() && old(objects).Keys <= objects.Keys
      ensures TwoPhase.Result(Heap(), events, done) == TwoPhase.Unwind(old(Heap()), id, ex, Read(frames), at, handler)
      decreases frames, 1
    {
      ghost var heap := Heap();
      var r := Ask(id, CleanupPhase, frames.head, ex);
      if r.Install? {
        events, done := Stop(id, ex, frames, at, handler, r, heap);
      } else {
        UnwindPasses(heap, id, ex, frames, at, handler, Heap());
        events, done := Unwind(id, ex, frames.tail, at + 1, handler);
      }
    }

    // A frame whose cleanup is entered, and the frames after it.
    method Stop(id: Id, ex: Thrown, frames: List<Frame>, at: nat, handler: nat, r: Reason, ghost heap: TwoPhase.Heap)
      returns (events: seq<TwoPhase.Event>, done: bool)
      requires Valid() && id in objects && Described(frames) && HandlerHasTables(frames, at, handler)
      requires frames.Cons? && at != handler && r.Install?
      requires var (c, reason) := Clean(TwoPhase.CacheOf(heap, id), ex, frames.head.place); Heap() == heap[id := c] && r == reason
      modifies this, objects.Values
      ensures Valid() && Grown() && old(objects).Keys <= objects.Keys
      ensures TwoPhase.Result(Heap(), events, done) == TwoPhase.Unwind(heap, id, ex, Read(frames), at, handler)
      decreases frames, 0
    {
      ghost var cleaned := Heap();
      var during;
      during, done := Run(frames.head.cleanup);
      events := [TwoPhase.Stopped(id, at, r.pad, r.selector)] + during;
      UnwindStops(heap, id, ex, frames, at, handler, cleaned, TwoPhase.Result(Heap(), during, done));
      if done {
        var after;
        after, done := Unwind(id, ex, frames.tail, at + 1, handler);
        events := events + after;
      }
    }

    // A raise, from the throw to the catch or to terminate.
    method Raise(e: Episode) returns (events: seq<TwoPhase.Event>, done: bool)
      requires Valid() && Described(e.frames)
      modifies this, objects.Values
      ensures Valid() && Grown() && old(objects).Keys <= objects.Keys
      ensures TwoPhase.Result(Heap(), events, done) == TwoPhase.Raise(old(Heap()), ReadEpisode(e))
      decreases e, 0
    {
      ghost var heap := Heap();
      Allocate(e.id);
      var found := Search(e.id, e.thrown, e.frames);
      RaiseSearched(heap, ReadEpisode(e), Heap(), found);
      if found.None? {
        return [], false;
      }
      FoundHasTables(TwoPhase.CacheOf(heap, e.id), e.thrown, e.frames, 0);
      events, done := Unwind(e.id, e.thrown, e.frames, 0, found.value);
    }

    // What a cleanup does.
    method Run(program: List<Episode>) returns (events: seq<TwoPhase.Event>, done: bool)
      requires Valid() && AllDescribed(program)
      modifies this, objects.Values
      ensures Valid() && Grown() && old(objects).Keys <= objects.Keys
      ensures TwoPhase.Result(Heap(), events, done) == TwoPhase.Run(old(Heap()), ReadAll(program))
      decreases program, 0
    {
      match program
      case Nil => return [], true;
      case Cons(e, rest) =>
        events, done := Raise(e);
        if done {
          var more;
          more, done := Run(rest);
          events := events + more;
        }
    }
  }

  // The second phase, one frame at a time.
  lemma UnwindPasses(heap: TwoPhase.Heap, id: Id, ex: Thrown, frames: List<Frame>, at: nat, handler: nat, cleaned: TwoPhase.Heap)
    requires frames.Cons? && at != handler
    requires var (c, reason) := Clean(TwoPhase.CacheOf(heap, id), ex, frames.head.place); cleaned == heap[id := c] && !reason.Install?
    ensures TwoPhase.Unwind(heap, id, ex, Read(frames), at, handler) == TwoPhase.Unwind(cleaned, id, ex, Read(frames.tail), at + 1, handler)
  {
  }

  lemma UnwindStops(heap: TwoPhase.Heap, id: Id, ex: Thrown, frames: List<Frame>, at: nat, handler: nat,
      cleaned: TwoPhase.Heap, ran: TwoPhase.Result)
    requires frames.Cons? && at != handler
    requires var (c, reason) := Clean(TwoPhase.CacheOf(heap, id), ex, frames.head.place); cleaned == heap[id := c] && reason.Install?
    requires ran == TwoPhase.Run(cleaned, ReadAll(frames.head.cleanup))
    ensures var reason := Clean(TwoPhase.CacheOf(heap, id), ex, frames.head.place).1;
      var stop := TwoPhase.Stopped(id, at, reason.pad, reason.selector);
      TwoPhase.Unwind(heap, id, ex, Read(frames), at, handler) ==
        if !ran.done then TwoPhase.Result(ran.heap, [stop] + ran.events, false)
        else
          var after := TwoPhase.Unwind(ran.heap, id, ex, Read(frames.tail), at + 1, handler);
          TwoPhase.Result(after.heap, [stop] + ran.events + after.events, after.done)
  {
  }

  lemma RaiseSearched(heap: TwoPhase.Heap, e: TwoPhase.Episode, searched: TwoPhase.Heap, found: Option<nat>)
    requires var zeroed := heap[e.id := TwoPhase.CacheOf(heap, e.id)];
      var (c, handler) := TwoPhase.SearchFrames(zeroed[e.id], e.thrown, e.frames, 0);
      searched == zeroed[e.id := c] && found == handler
    ensures TwoPhase.Raise(heap, e) ==
      match found
      case None => TwoPhase.Result(searched, [], false)
      case Some(handler) => TwoPhase.Unwind(searched, e.id, e.thrown, e.frames, 0, handler)
  {
    var c := TwoPhase.SearchFrames(TwoPhase.CacheOf(heap, e.id), e.thrown, e.frames, 0).0;
    assert heap[e.id := TwoPhase.CacheOf(heap, e.id)][e.id := c] == heap[e.id := c];
  }

  // The frame that reports a handler is not one without tables.
  predicate HandlerHasTables(frames: List<Frame>, at: nat, handler: nat)
    decreases frames
  {
    match frames
    case Nil => true
    case Cons(f, rest) => if at == handler then !f.place.NoTables? else HandlerHasTables(rest, at + 1, handler)
  }

  lemma {:induction false} FoundHasTables(c: Cache, ex: Thrown, frames: List<Frame>, at: nat)
    requires TwoPhase.SearchFrames(c, ex, Read(frames), at).1.Some?
    ensures var handler := TwoPhase.SearchFrames(c, ex, Read(frames), at).1.value;
      at <= handler && HandlerHasTables(frames, at, handler)
    decreases frames
  {
    match frames
    case Cons(f, rest) =>
      var (c', reason) := Personality.Search(c, ex, f.place);
      if reason != HandlerFound {
        FoundHasTables(c', ex, rest, at + 1);
      }
  }

  // ----- The theorem on bytes -----

  // Raising on fresh or idle headers, through any stack whose tables are described: what is entered
  // is what the stack is for, the headers in flight around the raise are left alone, and nothing is
  // cached in the end.
  method RaiseException(headers: Headers, e: Episode, ghost inFlight: set<Id>) returns (events: seq<TwoPhase.Event>, done: bool)
    requires headers.Valid() && Described(e.frames)
    requires e.id !in inFlight && TwoPhase.ApartFrames(Read(e.frames), inFlight + {e.id}) && TwoPhase.Idle(headers.Heap(), inFlight)
    modifies headers, headers.objects.Values
    ensures headers.Valid()
    ensures (events, done) == TwoPhase.ExpectedRaise(ReadEpisode(e))
    ensures done ==> TwoPhase.Idle(headers.Heap(), inFlight) && TwoPhase.Keeps(old(headers.Heap()), headers.Heap(), inFlight)
  {
    TwoPhase.RaiseMeaning(headers.Heap(), ReadEpisode(e), inFlight);
    events, done := headers.Raise(e);
  }

  // ----- Stacks as a compiler writes them -----

  // The frame stands at the i-th call site of a table behind this header, with this chain of clauses
  // and this type table, and what is noted beside it is what they mean.
  ghost predicate AtSite(f: Frame, t: Tables, h: Header, sites: seq<CallSites.CallSite>, i: nat, types: seq<TypeId>,
      clauses: seq<EncodedTables.Clause>)
  {
    && EncodedTables.HeaderAt(t, h, sites) && i < |sites| && CallSites.Covers(sites[i], f.context.ip)
    && var a := EncodedTables.AreaMeant(t, h, sites);
      && TypesAt(a, types)
      && EncodedTables.ChainAt(a, types, EncodedTables.FirstRecord(a, sites[i]), f.records, clauses)
      && |f.records| == |clauses|
      && (forall k :: 0 <= k < |clauses| ==> EncodedTables.ClauseFits(types, f.records[k], clauses[k]))
      && f.place == EncodedTables.MeantPlace(a, sites[i], types, f.records, clauses)
  }

  // The frame stands in a gap of such a table, before its i-th call site.
  ghost predicate InGap(f: Frame, t: Tables, h: Header, sites: seq<CallSites.CallSite>, i: nat) {
    && EncodedTables.HeaderAt(t, h, sites) && (forall c :: c in sites ==> !CallSites.Covers(c, f.context.ip))
    && i < |sites| && f.context.ip < sites[i].start
    && f.records == [] && f.place == NoRecord
  }

  ghost predicate FrameWritten(f: Frame) {
    match f.context.tables
    case None => f.place == NoTables
    case Some(t) =>
      || (exists h, sites, i, types, clauses :: AtSite(f, t, h, sites, i, types, clauses))
      || (exists h, sites, i :: InGap(f, t, h, sites, i))
  }

  // All frames, also those of the exceptions that cleanups raise, have such tables or none.
  ghost predicate Written(frames: List<Frame>)
    decreases frames
  {
    match frames
    case Nil => true
    case Cons(f, rest) => FrameWritten(f) && AllWritten(f.cleanup) && Written(rest)
  }

  ghost predicate AllWritten(program: List<Episode>)
    decreases program
  {
    match program
    case Nil => true
    case Cons(e, rest) => Written(e.frames) && AllWritten(rest)
  }

  lemma FrameDescribed(f: Frame)
    requires FrameWritten(f)
    ensures Describes(f.context, f.records, f.place)
  {
    if f.context.tables.Some? {
      var t := f.context.tables.value;
      assert f.context == Context(Some(t), f.context.ip);
      if h, sites, i, types, clauses :| AtSite(f, t, h, sites, i, types, clauses) {
        EncodedTables.EncodedDescribes(t, h, sites, f.context.ip, i, types, f.records, clauses);
      } else {
        var h, sites, i :| InGap(f, t, h, sites, i);
        EncodedTables.EncodedMisses(t, h, sites, f.context.ip, i);
      }
    }
  }

  // So the tables of all frames say what is noted beside them, and the theorem is about every stack of
  // encoded tables.
  lemma {:induction false} WrittenDescribed(frames: List<Frame>)
    requires Written(frames)
    ensures Described(frames)
    decreases frames
  {
    match frames
    case Nil =>
    case Cons(f, rest) =>
      FrameDescribed(f);
      AllWrittenDescribed(f.cleanup);
      WrittenDescribed(rest);
  }

  lemma {:induction false} AllWrittenDescribed(program: List<Episode>)
    requires AllWritten(program)
    ensures AllDescribed(program)
    decreases program
  {
    match program
    case Nil =>
    case Cons(e, rest) =>
      WrittenDescribed(e.frames);
      AllWrittenDescribed(rest);
  }
}
