// Raising an exception: the frames of the stack are visited twice, once to search for a handler
// and once to run the cleanups on the way to it. Cleanups run code that raises and catches other
// exceptions, each through the personality function and each with its own cached results.
module TwoPhase {
  import opened Lists
  import opened Actions
  import opened Personality

  type Id = nat

  // A frame of the stack, and what its cleanup code does.
  datatype Frame = Frame(place: Place, cleanup: List<Episode>)

  // One raise of an exception through the frames from the innermost out, up to its catch. The
  // exception may be new or one that was caught before.
  datatype Episode = Episode(id: Id, thrown: Thrown, frames: List<Frame>)

  datatype Event =
    | Stopped(id: Id, frame: nat, pad: int, selector: int)   // a cleanup is entered
    | Landed(id: Id, frame: nat, pad: int, selector: int)    // a handler is entered

  type Heap = map<Id, Cache>

  const ZEROED := Cache(0, 0, 0)

  // A header that is not on the heap yet will be allocated zeroed.
  function CacheOf(heap: Heap, id: Id): Cache {
    if id in heap then heap[id] else ZEROED
  }

  // ----- The two phases -----

  // The search phase: the frame that reports a handler, if any.
  function SearchFrames(c: Cache, ex: Thrown, frames: List<Frame>, at: nat): (Cache, Option<nat>)
    decreases frames
  {
    match frames
    case Nil => (c, None)
    case Cons(f, rest) =>
      var (c', reason) := Search(c, ex, f.place);
      if reason == HandlerFound then (c', Some(at)) else SearchFrames(c', ex, rest, at + 1)
  }

  // How far a raise got: the headers, what was entered on the way, and whether it reached a handler.
  // A raise that does not has led to terminate.
  datatype Result = Result(heap: Heap, events: seq<Event>, done: bool)

  // The second phase.
  function Unwind(heap: Heap, id: Id, ex: Thrown, frames: List<Frame>, at: nat, handler: nat): Result
    decreases frames
  {
    match frames
    case Nil => Result(heap, [], false)
    case Cons(f, rest) =>
      if at == handler then
        var (c, reason) := Handle(CacheOf(heap, id));
        if reason.Install? then Result(heap[id := c], [Landed(id, at, reason.pad, reason.selector)], true)
        else Result(heap[id := c], [], false)
      else
        var (c, reason) := Clean(CacheOf(heap, id), ex, f.place);
        if reason.Install? then
          var during := Run(heap[id := c], f.cleanup);
          if !during.done then Result(during.heap, [Stopped(id, at, reason.pad, reason.selector)] + during.events, false)
          else
            var after := Unwind(during.heap, id, ex, rest, at + 1, handler);
            Result(after.heap, [Stopped(id, at, reason.pad, reason.selector)] + during.events + after.events, after.done)
        else Unwind(heap[id := c], id, ex, rest, at + 1, handler)
  }

  // Without a handler the stack is not unwound at all.
  function Raise(heap: Heap, e: Episode): Result
    decreases e, 0
  {
    var (c, found) := SearchFrames(CacheOf(heap, e.id), e.thrown, e.frames, 0);
    match found
    case None => Result(heap[e.id := c], [], false)
    case Some(handler) => Unwind(heap[e.id := c], e.id, e.thrown, e.frames, 0, handler)
  }

  function Run(heap: Heap, program: List<Episode>): Result
    decreases program, 0
  {
    match program
    case Nil => Result(heap, [], true)
    case Cons(e, rest) =>
      var first := Raise(heap, e);
      if !first.done then first
      else
        var others := Run(first.heap, rest);
        Result(others.heap, first.events + others.events, others.done)
  }

  // ----- What a raise is for, read off the stack -----

  predicate Catches(ex: Thrown, place: Place) {
    place.Site? && place.chain.Some? && FirstStop(ex, place.chain.value) < |place.chain.value|
  }

  function Selector(ex: Thrown, place: Place): int
    requires Catches(ex, place)
  {
    place.chain.value[FirstStop(ex, place.chain.value)].filter
  }

  // A frame that does not catch but has a landing pad and asks for a cleanup.
  predicate Cleans(ex: Thrown, place: Place) {
    && place.Site? && place.pad != 0 && !Catches(ex, place)
    && (place.chain.None? || Cleanup in place.chain.value)
  }

  // What the cleanup is entered with: the filter of the last record that is not a catch clause.
  function CleanupSelector(place: Place): int {
    if place.Site? && place.chain.Some? then LastFilter(place.chain.value, 0) else 0
  }

  // The frame that ends the search.
  predicate Decides(ex: Thrown, place: Place) {
    place.NoRecord? || Catches(ex, place)
  }

  function Deciding(ex: Thrown, frames: List<Frame>, at: nat): (r: Option<(nat, Place)>)
    ensures r.Some? ==> at <= r.value.0 && Decides(ex, r.value.1)
    decreases frames
  {
    match frames
    case Nil => None
    case Cons(f, rest) => if Decides(ex, f.place) then Some((at, f.place)) else Deciding(ex, rest, at + 1)
  }

  // From the innermost frame out, run the cleanups and land at the first frame that catches. A frame
  // without a record on the way, a catch without a landing pad and a cleanup that does not complete
  // lead to terminate there.
  function Expected(id: Id, ex: Thrown, frames: List<Frame>, at: nat): (seq<Event>, bool)
    decreases frames, 0
  {
    match frames
    case Nil => ([], false)
    case Cons(f, rest) =>
      if f.place.NoRecord? then ([], false)
      else if Catches(ex, f.place) then
        if f.place.pad == 0 then ([], false) else ([Landed(id, at, f.place.pad, Selector(ex, f.place))], true)
      else if Cleans(ex, f.place) then
        var (during, completed) := ExpectedRun(f.cleanup);
        if !completed then ([Stopped(id, at, f.place.pad, CleanupSelector(f.place))] + during, false)
        else
          var (after, done) := Expected(id, ex, rest, at + 1);
          ([Stopped(id, at, f.place.pad, CleanupSelector(f.place))] + during + after, done)
      else Expected(id, ex, rest, at + 1)
  }

  // If no frame on the whole stack catches or has no record, nothing is run before terminate.
  function ExpectedRaise(e: Episode): (seq<Event>, bool)
    decreases e, 1
  {
    if Deciding(e.thrown, e.frames, 0).None? then ([], false) else Expected(e.id, e.thrown, e.frames, 0)
  }

  function ExpectedRun(program: List<Episode>): (seq<Event>, bool)
    decreases program, 0
  {
    match program
    case Nil => ([], true)
    case Cons(e, rest) =>
      var (events, done) := ExpectedRaise(e);
      if !done then (events, false)
      else
        var (more, completed) := ExpectedRun(rest);
        (events + more, completed)
  }

  // No cleanup raises an exception that is being unwound around it.
  predicate Apart(program: List<Episode>, inFlight: set<Id>)
    decreases program
  {
    match program
    case Nil => true
    case Cons(e, rest) => e.id !in inFlight && ApartFrames(e.frames, inFlight + {e.id}) && Apart(rest, inFlight)
  }

  predicate ApartFrames(frames: List<Frame>, inFlight: set<Id>)
    decreases frames
  {
    match frames
    case Nil => true
    case Cons(f, rest) => Apart(f.cleanup, inFlight) && ApartFrames(rest, inFlight)
  }

  // Nothing is cached for the exceptions that are not in flight.
  ghost predicate Idle(heap: Heap, inFlight: set<Id>) {
    forall id :: id in heap && id !in inFlight ==> heap[id].catchTemp == 0 && heap[id].switchValue == 0
  }

  ghost predicate Keeps(before: Heap, after: Heap, inFlight: set<Id>) {
    forall id :: id in inFlight ==> CacheOf(after, id) == CacheOf(before, id)
  }

  // The pointer that the frames crossed before the deciding one leave behind: each frame with a
  // landing pad whose specification allows the exception stores the view of the allowed type.
  function Crossed(ex: Thrown, frames: List<Frame>, adjusted: int): int
    decreases frames
  {
    match frames
    case Nil => adjusted
    case Cons(f, rest) => if Decides(ex, f.place) then adjusted else Crossed(ex, rest, CrossedOne(ex, f.place, adjusted))
  }

  function CrossedOne(ex: Thrown, place: Place, adjusted: int): int {
    if place.Site? && place.pad != 0 && place.chain.Some? then LastAllowed(ex, place.chain.value, adjusted) else adjusted
  }

  // ----- The two phases do what is expected -----

  lemma CheckMeaning(ex: Thrown, place: Place, adjusted: int)
    requires place.Site?
    ensures var v := Check(ex, place.chain, adjusted);
      && (v.handler.CatchHandler? <==> Catches(ex, place))
      && (v.handler.CleanupHandler? <==> !Catches(ex, place) && (place.chain.None? || Cleanup in place.chain.value))
      && (Catches(ex, place) ==> v.selector == Selector(ex, place))
      && (Catches(ex, place) ==> forall ty :: Clause(ex, place) == Some(ty) ==> Sees(ex, ty) && v.adjusted == View(ex, ty))
      && (!Catches(ex, place) ==> v.selector == CleanupSelector(place))
      && (!Catches(ex, place) ==> v.adjusted == if place.chain.None? then adjusted else LastAllowed(ex, place.chain.value, adjusted))
  {
    if place.chain.Some? {
      WalkMeaning(ex, place.chain.value, Verdict(NoHandler, 0, adjusted));
    }
  }

  // The type of the catch clause that a frame lands at, when it is not a violated specification.
  function Clause(ex: Thrown, place: Place): (r: Option<TypeId>)
    requires Catches(ex, place)
    ensures r.Some? ==> Sees(ex, r.value)
  {
    match place.chain.value[FirstStop(ex, place.chain.value)]
    case Catch(_, ty) => Some(ty)
    case _ => None
  }

  // What the search leaves in the header.
  ghost predicate Saved(c: Cache, ex: Thrown, place: Place) {
    if Catches(ex, place) then c.catchTemp == place.pad && c.switchValue == Selector(ex, place)
    else c.catchTemp == 0 && c.switchValue == 0
  }

  lemma {:induction false} SearchMeaning(c: Cache, ex: Thrown, frames: List<Frame>, at: nat)
    requires c.catchTemp == 0 && c.switchValue == 0
    ensures var (c', found) := SearchFrames(c, ex, frames, at);
      var d := Deciding(ex, frames, at);
      match d
      case None => found == None
      case Some((handler, place)) =>
        && found == Some(handler) && Saved(c', ex, place)
        && (Catches(ex, place) && Clause(ex, place).Some? ==> c'.adjustedPtr == View(ex, Clause(ex, place).value))
    decreases frames
  {
    match frames
    case Nil =>
    case Cons(f, rest) =>
      if f.place.Site? {
        CheckMeaning(ex, f.place, c.adjustedPtr);
      }
      if !Decides(ex, f.place) {
        SearchMeaning(Search(c, ex, f.place).0, ex, rest, at + 1);
      }
  }

  // A frame on the way to the handler.
  lemma CleanMeaning(c: Cache, ex: Thrown, place: Place)
    requires !Decides(ex, place)
    ensures var (c', reason) := Clean(c, ex, place);
      && (reason.Install? <==> Cleans(ex, place))
      && (reason.Install? ==> reason.pad == place.pad && reason.selector == CleanupSelector(place))
      && c' == c.(adjustedPtr := CrossedOne(ex, place, c.adjustedPtr))
  {
    if place.Site? {
      CheckMeaning(ex, place, c.adjustedPtr);
    }
  }

  // By its records: a cleanup is entered with zero, unless a specification that allows the exception
  // follows it in the chain; then with the filter of the last one, as if that had been violated.
  lemma CleanupSelected(c: Cache, ex: Thrown, place: Place)
    requires !Decides(ex, place) && Clean(c, ex, place).1.Install?
    ensures var selector := Clean(c, ex, place).1.selector;
      match place.chain
      case None => selector == 0
      case Some(chain) => exists i ::
        && 0 <= i < |chain| && (forall j :: i < j < |chain| ==> chain[j].Catch?)
        && ((chain[i].Cleanup? && selector == 0) || (chain[i].Spec? && Allows(ex, chain[i]) && selector == chain[i].filter))
  {
    CleanMeaning(c, ex, place);
    if place.chain.Some? {
      var chain := place.chain.value;
      var k :| 0 <= k < |chain| && chain[k] == Cleanup;
      var i := LastOther(chain);
      assert k <= i && !Ends(ex, chain[i]);
    }
  }

  // A result against what is expected.
  ghost predicate Agrees(r: Result, expected: (seq<Event>, bool), before: Heap, inFlight: set<Id>) {
    r.events == expected.0 && r.done == expected.1 && (r.done ==> Idle(r.heap, inFlight) && Keeps(before, r.heap, inFlight))
  }

  lemma {:induction false} UnwindMeaning(heap: Heap, id: Id, ex: Thrown, frames: List<Frame>, at: nat, inFlight: set<Id>)
    requires var d := Deciding(ex, frames, at); d.Some? && Saved(CacheOf(heap, id), ex, d.value.1)
    requires id !in inFlight && ApartFrames(frames, inFlight + {id}) && Idle(heap, inFlight + {id})
    ensures var handler := Deciding(ex, frames, at).value.0;
      var r := Unwind(heap, id, ex, frames, at, handler);
      && Agrees(r, Expected(id, ex, frames, at), heap, inFlight)
      && (r.done ==> CacheOf(r.heap, id).adjustedPtr == Crossed(ex, frames, CacheOf(heap, id).adjustedPtr))
    decreases frames, 1
  {
    var f, rest := frames.head, frames.tail;
    if !Decides(ex, f.place) {
      var (c, reason) := Clean(CacheOf(heap, id), ex, f.place);
      CleanMeaning(CacheOf(heap, id), ex, f.place);
      var heap1 := heap[id := c];
      if reason.Install? {
        RunMeaning(heap1, f.cleanup, inFlight + {id});
        var r := Run(heap1, f.cleanup);
        if r.done {
          assert id in inFlight + {id};
          UnwindMeaning(r.heap, id, ex, rest, at + 1, inFlight);
          KeepsThrough(heap, c, heap1, r.heap, id, inFlight);
        }
      } else {
        UnwindMeaning(heap1, id, ex, rest, at + 1, inFlight);
      }
    }
  }

  lemma KeepsThrough(heap: Heap, c: Cache, heap1: Heap, heap2: Heap, id: Id, inFlight: set<Id>)
    requires id !in inFlight && Keeps(heap1, heap2, inFlight + {id}) && heap1 == heap[id := c]
    ensures Keeps(heap, heap2, inFlight)
  {
    forall i | i in inFlight ensures CacheOf(heap2, i) == CacheOf(heap, i) {
      assert i in inFlight + {id};
    }
  }

  // A raise enters what is expected, up to a handler or to terminate. If it reaches the handler it
  // has nothing cached in the end, and has left the headers of the exceptions in flight around it
  // alone.
  lemma RaiseMeaning(heap: Heap, e: Episode, inFlight: set<Id>)
    requires e.id !in inFlight && ApartFrames(e.frames, inFlight + {e.id}) && Idle(heap, inFlight)
    ensures Agrees(Raise(heap, e), ExpectedRaise(e), heap, inFlight)
    decreases e, 0
  {
    var (c, found) := SearchFrames(CacheOf(heap, e.id), e.thrown, e.frames, 0);
    SearchMeaning(CacheOf(heap, e.id), e.thrown, e.frames, 0);
    if found.Some? {
      UnwindMeaning(heap[e.id := c], e.id, e.thrown, e.frames, 0, inFlight);
    }
  }

  lemma {:induction false} RunMeaning(heap: Heap, program: List<Episode>, inFlight: set<Id>)
    requires Apart(program, inFlight) && Idle(heap, inFlight)
    ensures Agrees(Run(heap, program), ExpectedRun(program), heap, inFlight)
    decreases program, 0
  {
    match program
    case Nil =>
    case Cons(e, rest) =>
      RaiseMeaning(heap, e, inFlight);
      var r := Raise(heap, e);
      if r.done {
        RunMeaning(r.heap, rest, inFlight);
      }
  }

  // ----- Catch-alls -----

  // The frame has a catch-all.
  predicate HasCatchAll(place: Place) {
    place.Site? && place.chain.Some? && exists i :: 0 <= i < |place.chain.value| && place.chain.value[i].Catch? && place.chain.value[i].ty == 0
  }

  // This record of the frame, and none before it, is a catch clause that sees the exception or a
  // specification that does not allow it.
  ghost predicate EndsAt(ex: Thrown, place: Place, i: nat) {
    && place.Site? && place.chain.Some? && i < |place.chain.value|
    && Ends(ex, place.chain.value[i]) && forall j :: 0 <= j < i ==> !Ends(ex, place.chain.value[j])
  }

  // A frame with a catch-all, and no frame without a record before it.
  ghost predicate CatchAllAt(frames: List<Frame>, k: nat) {
    && k < Length(frames) && HasCatchAll(Nth(frames, k).place)
    && forall j: nat :: j < k ==> !Nth(frames, j).place.NoRecord?
  }

  lemma CatchAllRest(frames: List<Frame>, k: nat)
    requires CatchAllAt(frames, k) && k > 0
    ensures CatchAllAt(frames.tail, k - 1) && !frames.head.place.NoRecord?
  {
    assert Nth(frames, 0) == frames.head;
    forall j: nat | j < k - 1 ensures !Nth(frames.tail, j).place.NoRecord? {
      assert Nth(frames, j + 1) == Nth(frames.tail, j);
    }
  }

  lemma {:induction false} CatchAllDecides(ex: Thrown, frames: List<Frame>, at: nat, k: nat)
    requires CatchAllAt(frames, k)
    ensures var d := Deciding(ex, frames, at);
      d.Some? && at <= d.value.0 <= at + k && Catches(ex, d.value.1) && d.value.1 == Nth(frames, d.value.0 - at).place
    decreases frames
  {
    assert Nth(frames, 0) == frames.head;
    if k == 0 {
      var chain := frames.head.place.chain.value;
      var i :| 0 <= i < |chain| && chain[i].Catch? && chain[i].ty == 0;
      assert Ends(ex, chain[i]);
    } else {
      CatchAllRest(frames, k);
      if !Decides(ex, frames.head.place) {
        CatchAllDecides(ex, frames.tail, at + 1, k - 1);
      }
    }
  }

  // Landing pads and cleanups that do not lead to terminate, up to this frame.
  ghost predicate Sane(frames: List<Frame>, k: nat)
    requires k < Length(frames)
  {
    forall j: nat :: j <= k ==>
      && (Nth(frames, j).place.Site? ==> Nth(frames, j).place.pad != 0)
      && (j < k ==> ExpectedRun(Nth(frames, j).cleanup).1)
  }

  lemma SaneRest(frames: List<Frame>, k: nat)
    requires 0 < k < Length(frames) && Sane(frames, k)
    ensures Sane(frames.tail, k - 1) && ExpectedRun(frames.head.cleanup).1 && (frames.head.place.Site? ==> frames.head.place.pad != 0)
  {
    assert Nth(frames, 0) == frames.head;
    forall j: nat | j <= k - 1
      ensures Nth(frames.tail, j).place.Site? ==> Nth(frames.tail, j).place.pad != 0
      ensures j < k - 1 ==> ExpectedRun(Nth(frames.tail, j).cleanup).1
    {
      assert Nth(frames, j + 1) == Nth(frames.tail, j);
    }
  }

  // The events end with the landing at the h-th frame, at the record that the frame's tables are for.
  ghost predicate EndsWith(events: seq<Event>, id: Id, ex: Thrown, frames: List<Frame>, at: nat, h: nat) {
    && h < Length(frames) && events != []
    && exists i: nat ::
      && EndsAt(ex, Nth(frames, h).place, i)
      && events[|events| - 1] == Landed(id, at + h, Nth(frames, h).place.pad, Nth(frames, h).place.chain.value[i].filter)
  }

  lemma {:induction false} CatchAllExpected(id: Id, ex: Thrown, frames: List<Frame>, at: nat, k: nat) returns (h: nat)
    requires CatchAllAt(frames, k) && Sane(frames, k)
    ensures h <= k && Expected(id, ex, frames, at).1 && EndsWith(Expected(id, ex, frames, at).0, id, ex, frames, at, h)
    decreases frames
  {
    var f := frames.head;
    assert Nth(frames, 0) == f;
    CatchAllDecides(ex, frames, at, k);
    if Catches(ex, f.place) {
      h := 0;
      assert EndsAt(ex, f.place, FirstStop(ex, f.place.chain.value));
    } else {
      CatchAllRest(frames, k);
      SaneRest(frames, k);
      var g := CatchAllExpected(id, ex, frames.tail, at + 1, k - 1);
      h := g + 1;
      assert Nth(frames, h) == Nth(frames.tail, g);
    }
  }

  // A raise over a stack with a catch-all, and no frame without a record before it, finds a handler at
  // that frame or at one further in; and it lands there unless a landing pad is missing or a cleanup
  // does not complete.
  lemma CatchAllCatches(heap: Heap, e: Episode, inFlight: set<Id>, k: nat)
    requires e.id !in inFlight && ApartFrames(e.frames, inFlight + {e.id}) && Idle(heap, inFlight)
    requires CatchAllAt(e.frames, k)
    ensures var found := SearchFrames(CacheOf(heap, e.id), e.thrown, e.frames, 0).1; found.Some? && found.value <= k
    ensures Sane(e.frames, k) ==>
      && Raise(heap, e).done
      && exists h: nat :: h <= k && EndsWith(Raise(heap, e).events, e.id, e.thrown, e.frames, 0, h)
  {
    CatchAllDecides(e.thrown, e.frames, 0, k);
    SearchMeaning(CacheOf(heap, e.id), e.thrown, e.frames, 0);
    RaiseMeaning(heap, e, inFlight);
    if Sane(e.frames, k) {
      var h := CatchAllExpected(e.id, e.thrown, e.frames, 0, k);
    }
  }

  // ----- The pointer that __cxa_begin_catch returns -----

  // A crossed frame that stores a pointer once more in the second phase: it has a landing pad and
  // an exception specification that allows the exception.
  ghost predicate Restores(ex: Thrown, place: Place) {
    && place.Site? && place.pad != 0 && place.chain.Some?
    && exists i :: 0 <= i < |place.chain.value| && Allows(ex, place.chain.value[i])
  }

  // The frames before the one that ends the search.
  function Before(ex: Thrown, frames: List<Frame>): (r: seq<Place>)
    decreases frames
  {
    match frames
    case Nil => []
    case Cons(f, rest) => if Decides(ex, f.place) then [] else [f.place] + Before(ex, rest)
  }

  lemma {:induction false} CrossedQuietly(ex: Thrown, frames: List<Frame>, adjusted: int)
    requires forall place :: place in Before(ex, frames) ==> !Restores(ex, place)
    ensures Crossed(ex, frames, adjusted) == adjusted
    decreases frames
  {
    match frames
    case Nil =>
    case Cons(f, rest) =>
      if !Decides(ex, f.place) {
        assert f.place in Before(ex, frames);
        assert CrossedOne(ex, f.place, adjusted) == adjusted;
        CrossedQuietly(ex, rest, adjusted);
      }
  }

  lemma {:induction false} CrossedReplaces(ex: Thrown, frames: List<Frame>, one: int, other: int)
    requires exists place :: place in Before(ex, frames) && Restores(ex, place)
    ensures Crossed(ex, frames, one) == Crossed(ex, frames, other)
    decreases frames
  {
    var f, rest := frames.head, frames.tail;
    assert Before(ex, frames) == [f.place] + Before(ex, rest);
    if Restores(ex, f.place) {
      assert CrossedOne(ex, f.place, one) == CrossedOne(ex, f.place, other);
    } else {
      CrossedReplaces(ex, rest, CrossedOne(ex, f.place, one), CrossedOne(ex, f.place, other));
    }
  }

  // After a raise that lands at a catch clause, the pointer is the view of that clause, unless a
  // crossed frame with a landing pad has a specification that allows the exception: then the last
  // of these decides, and the clause has no part in it.
  lemma CaughtPointer(heap: Heap, e: Episode, inFlight: set<Id>, ty: TypeId)
    requires e.id !in inFlight && ApartFrames(e.frames, inFlight + {e.id}) && Idle(heap, inFlight)
    requires Raise(heap, e).done
    requires var d := Deciding(e.thrown, e.frames, 0);
      d.Some? && Catches(e.thrown, d.value.1) && Clause(e.thrown, d.value.1) == Some(ty)
    ensures var pointer := CacheOf(Raise(heap, e).heap, e.id).adjustedPtr;
      && Sees(e.thrown, ty)
      && pointer == Crossed(e.thrown, e.frames, View(e.thrown, ty))
      && ((forall place :: place in Before(e.thrown, e.frames) ==> !Restores(e.thrown, place))
          ==> pointer == View(e.thrown, ty))
      && ((exists place :: place in Before(e.thrown, e.frames) && Restores(e.thrown, place))
          ==> forall other: int :: pointer == Crossed(e.thrown, e.frames, other))
  {
    var (c, found) := SearchFrames(CacheOf(heap, e.id), e.thrown, e.frames, 0);
    SearchMeaning(CacheOf(heap, e.id), e.thrown, e.frames, 0);
    UnwindMeaning(heap[e.id := c], e.id, e.thrown, e.frames, 0, inFlight);
    if forall place :: place in Before(e.thrown, e.frames) ==> !Restores(e.thrown, place) {
      CrossedQuietly(e.thrown, e.frames, View(e.thrown, ty));
    } else {
      forall other: int ensures Crossed(e.thrown, e.frames, View(e.thrown, ty)) == Crossed(e.thrown, e.frames, other) {
        CrossedReplaces(e.thrown, e.frames, View(e.thrown, ty), other);
      }
    }
  }

  // An exception at address 100 that type 1 sees at 100 and type 2 at 108. A frame that allows
  // type 1 and has a landing pad is crossed on the way to a catch of type 2, whose handler then
  // gets the pointer of type 1.
  lemma WrongPointer()
    ensures var ex := Thrown(100, map[1 := 100, 2 := 108]);
      var inner := Frame(Site(7, Some([Spec(-1, [1])])), Nil);
      var outer := Frame(Site(9, Some([Catch(1, 2)])), Nil);
      Raise(map[], Episode(0, ex, Cons(inner, Cons(outer, Nil)))) == Result(map[0 := Cache(0, 0, 100)], [Landed(0, 1, 9, 1)], true)
  {
    var ex := Thrown(100, map[1 := 100, 2 := 108]);
    var spec, clause := [Spec(-1, [1])], [Catch(1, 2)];
    var outer := Cons(Frame(Site(9, Some(clause)), Nil), Nil);
    var frames := Cons(Frame(Site(7, Some(spec)), Nil), outer);
    assert FirstOf(ex, [1]) == Some(100);
    assert Check(ex, Some(spec), 0) == Verdict(NoHandler, -1, 100) && Check(ex, Some(spec), 108) == Verdict(NoHandler, -1, 100);
    assert Check(ex, Some(clause), 100) == Verdict(CatchHandler, 1, 108);
    assert SearchFrames(Cache(0, 0, 100), ex, outer, 1) == (Cache(1, 9, 108), Some(1));
    assert SearchFrames(ZEROED, ex, frames, 0) == (Cache(1, 9, 108), Some(1));
    var heap: Heap := map[0 := Cache(1, 9, 100)];
    assert heap[0 := Cache(0, 0, 100)] == map[0 := Cache(0, 0, 100)];
    assert Unwind(heap, 0, ex, outer, 1, 1) == Result(map[0 := Cache(0, 0, 100)], [Landed(0, 1, 9, 1)], true);
    var none: Heap := map[];
    assert none[0 := Cache(1, 9, 108)][0 := Cache(1, 9, 100)] == heap;
  }
}
