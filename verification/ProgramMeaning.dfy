// What structured programs mean, and that running them through the exception ABI calls does that.
//
// The meaning is read statement by statement from the language: which handler an exception enters,
// which cleanups run on the way, what a rethrow raises and what an exception_ptr holds. It knows
// nothing of headers, counts, caught lists and frames.
module ProgramMeaning {
  import opened Lists
  import opened Abi
  import opened Machine
  import opened Lifetime
  import opened LifetimeSteps
  import LifetimeTheorems

  // An exception object.
  datatype Object = Object(id: Id, ty: nat)

  // What a thread is seen to do. A level says how many frames lie below.
  datatype Event =
    | Raised(o: Object)
    | Entered(o: Object, handler: Stmt, level: nat)       // a handler starts
    | Left                                                // a handler ends, in either way
    | Cleaned(cleanup: Stmt, level: nat)                  // a cleanup starts
    | Assigned(dst: Handle, value: Option<Object>)
    | Read(src: Handle, value: Option<Object>)

  // ----- The meaning of programs -----

  datatype Ending = Returned | Thrown(o: Object)

  // How far a statement explains a list of events: it ends, with events left over; it goes on after
  // them; or it does something else.
  datatype Progress = Done(ending: Ending, rest: List<Event>) | Underway | Wrong

  function Expect(event: Event, tr: List<Event>): Progress {
    match tr
    case Nil => Underway
    case Cons(first, rest) => if first == event then Done(Returned, rest) else Wrong
  }

  // The program is stopped here.
  function Stop(tr: List<Event>): Progress {
    if tr.Nil? then Underway else Wrong
  }

  // What encloses a statement.
  datatype Spot =
    | Next(s: Stmt)
    | Trying(clause: Clause, handler: Stmt)
    | Catching(o: Object)
    | Guarding(cleanup: Stmt)
    | Cleaning(o: Object)

  function Waiting(f: Spot): Stmt {
    match f
    case Next(s) => s
    case Trying(_, handler) => handler
    case Guarding(cleanup) => cleanup
    case _ => Skip
  }

  // The end of a handler, and of a cleanup that an exception has to wait for.
  function EndCatch(p: Progress): Progress {
    if !p.Done? then p
    else
      match Expect(Left, p.rest)
      case Done(_, rest) => Done(p.ending, rest)
      case q => q
  }

  function Resume(o: Object, p: Progress): Progress {
    if !p.Done? then p else if p.ending.Returned? then Done(Thrown(o), p.rest) else Stop(p.rest)
  }

  // A statement where the handlers around it have caught cur, if anything.
  function Follow(s: Stmt, cur: Option<Object>, level: nat, tr: List<Event>): Progress
    decreases s, 0
  {
    match s
    case Skip => Done(Returned, tr)
    case Abort => Stop(tr)
    case Throw(ty) =>
      (match tr
       case Nil => Underway
       case Cons(Raised(o), rest) => if o.ty == ty then Done(Thrown(o), rest) else Wrong
       case _ => Wrong)
    case Rethrow =>
      (match cur
       case None => Stop(tr)
       case Some(o) =>
         match Expect(Raised(o), tr)
         case Done(_, rest) => Done(Thrown(o), rest)
         case p => p)
    case Then(a, b) =>
      (match Follow(a, cur, level + 1, tr)
       case Done(ending, rest) => Leave(Next(b), cur, level, ending, rest)
       case p => p)
    case Try(b, clause, handler) =>
      (match Follow(b, cur, level + 1, tr)
       case Done(ending, rest) => Leave(Trying(clause, handler), cur, level, ending, rest)
       case p => p)
    case Guarded(b, cleanup) =>
      (match Follow(b, cur, level + 1, tr)
       case Done(ending, rest) => Leave(Guarding(cleanup), cur, level, ending, rest)
       case p => p)
    case Capture(dst) => Expect(Assigned(dst, cur), tr)
    case Copy(dst, src) =>
      (match tr
       case Nil => Underway
       case Cons(Read(h, value), rest) => if h == src then Expect(Assigned(dst, value), rest) else Wrong
       case _ => Wrong)
    case Make(dst, ty) =>
      (match tr
       case Nil => Underway
       case Cons(Assigned(h, Some(o)), rest) => if h == dst && o.ty == ty then Done(Returned, rest) else Wrong
       case _ => Wrong)
    case Reset(dst) => Expect(Assigned(dst, None), tr)
    case ThrowFrom(src) =>
      (match tr
       case Nil => Underway
       case Cons(Read(h, value), rest) =>
         if h != src then Wrong
         else if value.None? then Done(Returned, rest)
         else
           (match Expect(Raised(value.value), rest)
            case Done(_, more) => Done(Thrown(value.value), more)
            case p => p)
       case _ => Wrong)
  }

  // What encloses a statement goes on when it ends.
  function Leave(f: Spot, cur: Option<Object>, level: nat, ending: Ending, tr: List<Event>): Progress
    decreases Waiting(f), 1
  {
    match f
    case Next(s) => if ending.Returned? then Follow(s, cur, level, tr) else Done(ending, tr)
    case Trying(clause, handler) =>
      if ending.Thrown? && (clause.CatchAll? || ending.o.ty in clause.types) then
        match Expect(Entered(ending.o, handler, level), tr)
        case Done(_, rest) => EndCatch(Follow(handler, Some(ending.o), level + 1, rest))
        case p => p
      else Done(ending, tr)
    case Catching(_) => EndCatch(Done(ending, tr))
    case Guarding(cleanup) =>
      (match Expect(Cleaned(cleanup, level), tr)
       case Done(_, rest) =>
         if ending.Returned? then Follow(cleanup, cur, level, rest)
         else Resume(ending.o, Follow(cleanup, cur, level + 1, rest))
       case p => p)
    case Cleaning(o) => Resume(o, Done(ending, tr))
  }

  // A read gives what was assigned last, by any thread.
  function Lookup(mem: map<Handle, Object>, h: Handle): Option<Object> {
    if h in mem then Some(mem[h]) else None
  }

  function Replay(mem: map<Handle, Object>, tr: List<Event>): Option<map<Handle, Object>>
    decreases tr
  {
    match tr
    case Nil => Some(mem)
    case Cons(Read(src, value), rest) => if value == Lookup(mem, src) then Replay(mem, rest) else None
    case Cons(Assigned(dst, value), rest) => Replay(if value.Some? then mem[dst := value.value] else mem - {dst}, rest)
    case Cons(_, rest) => Replay(mem, rest)
  }

  // ----- What a run is seen to do -----

  // The exception object that a header stands for; of an unknown header nothing is known.
  function ObjectOf(rt: Runtime, e: Id): Object {
    if Typed(rt, e) then Object(Real(rt.headers, e), TypeOf(rt, e)) else Object(e, 0)
  }

  function Value(w: World, h: Handle): Option<Object> {
    if h in w.ptrs then Some(ObjectOf(w.rt, w.ptrs[h])) else None
  }

  function Memory(w: World): map<Handle, Object> {
    map h | h in w.ptrs :: ObjectOf(w.rt, w.ptrs[h])
  }

  function One(event: Event): List<Event> {
    Cons(event, Nil)
  }

  function SeenRaise(w: World, t: Tid): List<Event>
    requires t in w.threads
  {
    var th := w.threads[t];
    if th.control.Unwind? then One(Raised(ObjectOf(w.rt, th.control.e))) else Nil
  }

  // A step of thread t from w to w', by the states before and after it.
  function Seen(w: World, t: Tid, w': World): List<Event>
    requires t in w.threads && t in w'.threads
  {
    var th, th' := w.threads[t], w'.threads[t];
    if !th.pending.Idle? then Nil
    else
      match th.control
      case Run(Throw(_)) => SeenRaise(w', t)
      case Run(Rethrow) => SeenRaise(w', t)
      case Run(ThrowFrom(src)) => Cons(Read(src, Value(w, src)), SeenRaise(w', t))
      case Run(Copy(dst, src)) => Cons(Read(src, Value(w, src)), One(Assigned(dst, Value(w', dst))))
      case Run(Capture(dst)) => One(Assigned(dst, Value(w', dst)))
      case Run(Make(dst, _)) => One(Assigned(dst, Value(w', dst)))
      case Run(Reset(dst)) => One(Assigned(dst, Value(w', dst)))
      case Run(Skip) =>
        if th.frames.Nil? then Nil
        else if th.frames.head.Armed? && th'.control.Run? then One(Cleaned(th'.control.s, Length(th'.frames)))
        else if th.frames.head.InCatch? then One(Left)
        else Nil
      case Run(_) => Nil
      case Unwind(_) =>
        if th'.control.Run? && th'.frames.Cons? then
          if th'.frames.head.InCatch? then One(Entered(ObjectOf(w'.rt, th'.frames.head.e), th'.control.s, Length(th'.frames.tail)))
          else One(Cleaned(th'.control.s, Length(th'.frames.tail)))
        else if th.frames.Cons? && th.frames.head.InCatch? then One(Left)
        else Nil
  }

  function Append(a: List<Event>, b: List<Event>): List<Event> {
    match a
    case Nil => b
    case Cons(x, rest) => Cons(x, Append(rest, b))
  }

  // All events of a run, and those of one thread.
  function History(w: World, schedule: List<Tid>): List<Event>
    decreases schedule
  {
    match schedule
    case Nil => Nil
    case Cons(t, rest) =>
      var o := Step(w, t);
      if o.Ran? && t in w.threads && t in o.w.threads then Append(Seen(w, t, o.w), History(o.w, rest))
      else if o.Ran? then History(o.w, rest)
      else Nil
  }

  function HistoryOf(w: World, schedule: List<Tid>, t: Tid): List<Event>
    decreases schedule
  {
    match schedule
    case Nil => Nil
    case Cons(u, rest) =>
      var o := Step(w, u);
      if o.Ran? && u == t && t in w.threads && t in o.w.threads then Append(Seen(w, t, o.w), HistoryOf(o.w, rest, t))
      else if o.Ran? then HistoryOf(o.w, rest, t)
      else Nil
  }

  // ----- Threads explain what is left of their programs -----

  function Spots(rt: Runtime, frames: List<Frame>): List<Spot> {
    match frames
    case Nil => Nil
    case Cons(f, rest) => Cons(SpotOf(rt, f), Spots(rt, rest))
  }

  function SpotOf(rt: Runtime, f: Frame): Spot {
    match f
    case AndThen(s) => Next(s)
    case InTry(clause, handler) => Trying(clause, handler)
    case InCatch(e) => Catching(ObjectOf(rt, e))
    case Armed(cleanup) => Guarding(cleanup)
    case InCleanup(e) => Cleaning(ObjectOf(rt, e))
  }

  // The exception of the innermost handler.
  function Cur(spots: List<Spot>): Option<Object> {
    match spots
    case Nil => None
    case Cons(f, rest) => if f.Catching? then Some(f.o) else Cur(rest)
  }

  function Continue(spots: List<Spot>, p: Progress): Progress
    decreases spots
  {
    if !p.Done? then p
    else
      match spots
      case Nil => p
      case Cons(f, rest) => Continue(rest, Leave(f, Cur(rest), Length(rest), p.ending, p.rest))
  }

  function Begin(control: Control, spots: List<Spot>, rt: Runtime, tr: List<Event>): Progress {
    match control
    case Run(s) => Follow(s, Cur(spots), Length(spots), tr)
    case Unwind(e) => Done(Thrown(ObjectOf(rt, e)), tr)
  }

  function FollowThread(rt: Runtime, th: Thread, tr: List<Event>): Progress {
    var spots := Spots(rt, th.frames);
    Continue(spots, Begin(th.control, spots, rt, tr))
  }

  // ----- Exception objects stay the same -----

  predicate KindsStay(rt: Runtime, rt': Runtime) {
    forall e :: e in rt.headers && e in rt'.headers ==> rt'.headers[e].kind == rt.headers[e].kind
  }

  lemma RunKinds(w: World, t: Tid, s: Stmt)
    requires t in w.threads && t in w.rt.globals && Fresh(w) !in w.rt.headers && StepRun(w, t, s).Ran?
    ensures KindsStay(w.rt, StepRun(w, t, s).w.rt)
  {
  }

  lemma UnwindKinds(w: World, t: Tid, e: Id)
    requires t in w.threads && t in w.rt.globals && StepUnwind(w, t, e).Ran?
    ensures KindsStay(w.rt, StepUnwind(w, t, e).w.rt)
  {
  }

  lemma ReleaseKinds(w: World, t: Tid)
    requires t in w.threads && StepRelease(w, t).Ran?
    ensures KindsStay(w.rt, StepRelease(w, t).w.rt)
  {
  }

  lemma StepKinds(w: World, t: Tid)
    requires Fresh(w) !in w.rt.headers && Step(w, t).Ran?
    ensures KindsStay(w.rt, Step(w, t).w.rt)
  {
    if t in w.threads && t in w.rt.globals {
      var th := w.threads[t];
      if !th.pending.Idle? {
        ReleaseKinds(w, t);
      } else if th.control.Run? {
        RunKinds(w, t, th.control.s);
      } else {
        UnwindKinds(w, t, th.control.e);
      }
    }
  }

  lemma SameObject(rt: Runtime, rt': Runtime, e: Id)
    requires KindsStay(rt, rt') && Typed(rt, e) && Typed(rt', e)
    ensures ObjectOf(rt', e) == ObjectOf(rt, e)
  {
  }

  // The exceptions that frames mention.
  function Mentions(frames: List<Frame>): set<Id> {
    match frames
    case Nil => {}
    case Cons(f, rest) => (if f.InCatch? || f.InCleanup? then {f.e} else {}) + Mentions(rest)
  }

  ghost predicate AllTyped(rt: Runtime, ids: set<Id>) {
    forall e :: e in ids ==> Typed(rt, e)
  }

  lemma {:induction false} SameSpots(rt: Runtime, rt': Runtime, frames: List<Frame>)
    requires KindsStay(rt, rt') && AllTyped(rt, Mentions(frames)) && AllTyped(rt', Mentions(frames))
    ensures Spots(rt', frames) == Spots(rt, frames)
  {
    match frames
    case Nil =>
    case Cons(f, rest) =>
      if f.InCatch? || f.InCleanup? {
        SameObject(rt, rt', f.e);
      }
      SameSpots(rt, rt', rest);
  }

  lemma {:induction false} MentionsActive(frames: List<Frame>)
    ensures Mentions(frames) == Elements(Catches(frames)) + Elements(Resuming(frames))
  {
    match frames
    case Nil =>
    case Cons(_, rest) => MentionsActive(rest);
  }

  lemma ThreadTyped(w: World, t: Tid)
    requires Inv(w) && t in w.threads
    ensures AllTyped(w.rt, Mentions(w.threads[t].frames))
    ensures w.threads[t].control.Unwind? ==> Typed(w.rt, w.threads[t].control.e)
  {
    MentionsActive(w.threads[t].frames);
    forall e | e in Active(w.threads[t]) ensures Typed(w.rt, e) {
      ActiveTyped(w, t, e);
    }
  }

  lemma {:induction false} LengthSpots(rt: Runtime, frames: List<Frame>)
    ensures Length(Spots(rt, frames)) == Length(frames)
  {
    match frames
    case Nil =>
    case Cons(_, rest) => LengthSpots(rt, rest);
  }

  // ----- Every step is explained -----

  // What thread t does in a step from w to w' explains what is left to do.
  ghost predicate Explained(w: World, t: Tid, w': World) {
    && t in w.threads && t in w'.threads
    && forall tr :: FollowThread(w.rt, w.threads[t], Append(Seen(w, t, w'), tr)) == FollowThread(w'.rt, w'.threads[t], tr)
  }

  // A thread that stays as it is.
  lemma SameThread(w: World, u: Tid, t: Tid, tr: List<Event>)
    requires Inv(w) && Step(w, u).Ran? && t in w.threads
    requires var w' := Step(w, u).w;
      Inv(w') && t in w'.threads && w'.threads[t].(pending := Idle) == w.threads[t].(pending := Idle)
    ensures FollowThread(Step(w, u).w.rt, Step(w, u).w.threads[t], tr) == FollowThread(w.rt, w.threads[t], tr)
  {
    var w' := Step(w, u).w;
    FreshUnknown(w);
    StepKinds(w, u);
    ThreadTyped(w, t);
    ThreadTyped(w', t);
    SameSpots(w.rt, w'.rt, w.threads[t].frames);
    if w.threads[t].control.Unwind? {
      SameObject(w.rt, w'.rt, w.threads[t].control.e);
    }
  }

  // Thread t runs s and nothing is pending.
  predicate Runs(w: World, t: Tid, s: Stmt) {
    t in w.threads && t in w.rt.globals && w.threads[t].pending.Idle? && w.threads[t].control == Run(s)
  }

  lemma EnterFollows(w: World, t: Tid, s: Stmt)
    requires t in w.threads && t in w.rt.globals && w.threads[t].pending.Idle? && w.threads[t].control == Run(s)
    requires s.Then? || s.Try? || s.Guarded?
    ensures Explained(w, t, StepRun(w, t, s).w)
  {
    var w' := StepRun(w, t, s).w;
    var spots := Spots(w.rt, w.threads[t].frames);
    assert Spots(w'.rt, w'.threads[t].frames) == Cons(SpotOf(w.rt, w'.threads[t].frames.head), spots);
  }

  // The rest of the stack of a thread that loses its innermost frame.
  lemma RestSpots(w: World, u: Tid, t: Tid)
    requires Inv(w) && Step(w, u).Ran? && t in w.threads && Inv(Step(w, u).w) && t in Step(w, u).w.threads
    requires var frames, frames' := w.threads[t].frames, Step(w, u).w.threads[t].frames;
      frames.Cons? && (frames' == frames.tail || (frames'.Cons? && frames'.tail == frames.tail))
    ensures Spots(Step(w, u).w.rt, w.threads[t].frames.tail) == Spots(w.rt, w.threads[t].frames.tail)
  {
    var w' := Step(w, u).w;
    FreshUnknown(w);
    StepKinds(w, u);
    ThreadTyped(w, t);
    ThreadTyped(w', t);
    var rest := w.threads[t].frames.tail;
    assert Mentions(rest) <= Mentions(w.threads[t].frames) && Mentions(rest) <= Mentions(w'.threads[t].frames);
    SameSpots(w.rt, w'.rt, rest);
  }

  // The frames below the innermost one mean what they meant, and so does the exception that waits for
  // the cleanup that ends.
  ghost predicate Level(w: World, w': World, t: Tid)
    requires t in w.threads && w.threads[t].frames.Cons?
  {
    var f, rest := w.threads[t].frames.head, w.threads[t].frames.tail;
    && Spots(w'.rt, rest) == Spots(w.rt, rest) && Length(Spots(w.rt, rest)) == Length(rest)
    && (f.InCleanup? ==> ObjectOf(w'.rt, f.e) == ObjectOf(w.rt, f.e))
  }

  lemma ReturnShape(w: World, t: Tid)
    requires Runs(w, t, Skip) && w.threads[t].frames.Cons? && Step(w, t).Ran?
    ensures var w', frames := Step(w, t).w, w.threads[t].frames;
      && t in w'.threads && w'.threads[t].frames == frames.tail
      && (frames.head.InCleanup? ==> w'.threads[t].control == Unwind(frames.head.e))
  {
  }

  lemma ReturnLevel(w: World, t: Tid)
    requires Runs(w, t, Skip) && w.threads[t].frames.Cons? && Step(w, t).Ran? && Inv(w) == true && Inv(Step(w, t).w) == true
    ensures Level(w, Step(w, t).w, t)
  {
    ReturnShape(w, t);
    RestSpots(w, t, t);
    LengthSpots(w.rt, w.threads[t].frames.tail);
    if w.threads[t].frames.head.InCleanup? {
      ResumedStays(w, t);
    }
  }

  lemma ResumedStays(w: World, t: Tid)
    requires Runs(w, t, Skip) && w.threads[t].frames.Cons? && w.threads[t].frames.head.InCleanup?
    requires Step(w, t).Ran? && Inv(w) == true && Inv(Step(w, t).w) == true
    ensures ObjectOf(Step(w, t).w.rt, w.threads[t].frames.head.e) == ObjectOf(w.rt, w.threads[t].frames.head.e)
  {
    ReturnShape(w, t);
    ThreadTyped(w, t);
    ThreadTyped(Step(w, t).w, t);
    FreshUnknown(w);
    StepKinds(w, t);
    SameObject(w.rt, Step(w, t).w.rt, w.threads[t].frames.head.e);
  }

  lemma LevelFollows(w: World, t: Tid)
    requires Runs(w, t, Skip) && Step(w, t).Ran? && (w.threads[t].frames.Cons? ==> Level(w, Step(w, t).w, t))
    ensures Explained(w, t, Step(w, t).w)
  {
  }

  lemma ReturnFollows(w: World, t: Tid)
    requires Inv(w) && Runs(w, t, Skip) && Step(w, t).Ran? && Inv(Step(w, t).w)
    ensures Explained(w, t, Step(w, t).w)
  {
    if w.threads[t].frames.Cons? {
      ReturnLevel(w, t);
    }
    LevelFollows(w, t);
  }

  // An exception at a handler that catches it, and at a cleanup.
  lemma CatchExplains(rest: List<Spot>, clause: Clause, handler: Stmt, o: Object, tr: List<Event>)
    requires clause.CatchAll? || o.ty in clause.types
    ensures Continue(Cons(Trying(clause, handler), rest), Done(Thrown(o), Cons(Entered(o, handler, Length(rest)), tr)))
      == Continue(Cons(Catching(o), rest), Follow(handler, Some(o), Length(rest) + 1, tr))
  {
    var p := Follow(handler, Some(o), Length(rest) + 1, tr);
    assert Expect(Entered(o, handler, Length(rest)), Cons(Entered(o, handler, Length(rest)), tr)) == Done(Returned, tr);
    assert Leave(Trying(clause, handler), Cur(rest), Length(rest), Thrown(o), Cons(Entered(o, handler, Length(rest)), tr)) == EndCatch(p);
  }

  lemma CleanExplains(rest: List<Spot>, cleanup: Stmt, o: Object, tr: List<Event>)
    ensures Continue(Cons(Guarding(cleanup), rest), Done(Thrown(o), Cons(Cleaned(cleanup, Length(rest)), tr)))
      == Continue(Cons(Cleaning(o), rest), Follow(cleanup, Cur(rest), Length(rest) + 1, tr))
  {
    var p := Follow(cleanup, Cur(rest), Length(rest) + 1, tr);
    assert Leave(Guarding(cleanup), Cur(rest), Length(rest), Thrown(o), Cons(Cleaned(cleanup, Length(rest)), tr)) == Resume(o, p);
  }

  // The exception in flight and the frames below the innermost one mean what they meant.
  ghost predicate Steady(w: World, w': World, t: Tid)
    requires t in w.threads && w.threads[t].control.Unwind? && w.threads[t].frames.Cons?
  {
    var e, rest := w.threads[t].control.e, w.threads[t].frames.tail;
    && Typed(w.rt, e)
    && ObjectOf(w'.rt, e) == ObjectOf(w.rt, e)
    && Spots(w'.rt, rest) == Spots(w.rt, rest) && Length(Spots(w.rt, rest)) == Length(rest)
  }

  lemma UnwindSteady(w: World, t: Tid)
    requires Inv(w) && t in w.threads && t in w.rt.globals && w.threads[t].pending.Idle? && w.threads[t].control.Unwind?
    requires Step(w, t).Ran? && Inv(Step(w, t).w)
    ensures w.threads[t].frames.Cons? && Steady(w, Step(w, t).w, t)
  {
    UnwindShape(w, t);
    RestSpots(w, t, t);
    LengthSpots(w.rt, w.threads[t].frames.tail);
    ThreadTyped(w, t);
    FlightStays(w, t);
  }

  lemma UnwindShape(w: World, t: Tid)
    requires t in w.threads && t in w.rt.globals && w.threads[t].pending.Idle? && w.threads[t].control.Unwind? && Step(w, t).Ran?
    ensures var th, w' := w.threads[t], Step(w, t).w;
      && th.frames.Cons? && t in w'.threads
      && var th' := w'.threads[t];
        || (th'.control == th.control && th'.frames == th.frames.tail)
        || (th'.frames == Cons(InCatch(th.control.e), th.frames.tail))
        || (th'.frames == Cons(InCleanup(th.control.e), th.frames.tail))
  {
  }

  // The exception in flight is in flight or mentioned by the frames after a step.
  lemma FlightStays(w: World, t: Tid)
    requires Inv(w) && t in w.threads && t in w.rt.globals && w.threads[t].pending.Idle? && w.threads[t].control.Unwind?
    requires Step(w, t).Ran? && Inv(Step(w, t).w)
    ensures ObjectOf(Step(w, t).w.rt, w.threads[t].control.e) == ObjectOf(w.rt, w.threads[t].control.e)
  {
    UnwindShape(w, t);
    ThreadTyped(w, t);
    ThreadTyped(Step(w, t).w, t);
    FreshUnknown(w);
    StepKinds(w, t);
    SameObject(w.rt, Step(w, t).w.rt, w.threads[t].control.e);
  }

  lemma PassFollows(w: World, t: Tid)
    requires t in w.threads && t in w.rt.globals && w.threads[t].pending.Idle? && w.threads[t].control.Unwind?
    requires Step(w, t).Ran? && w.threads[t].frames.Cons? && Steady(w, Step(w, t).w, t)
    requires var f, o := w.threads[t].frames.head, ObjectOf(w.rt, w.threads[t].control.e);
      !f.Armed? && (f.InTry? ==> !f.clause.CatchAll? && o.ty !in f.clause.types)
    ensures Explained(w, t, Step(w, t).w)
  {
  }

  lemma EntersFollows(w: World, t: Tid)
    requires t in w.threads && t in w.rt.globals && w.threads[t].pending.Idle? && w.threads[t].control.Unwind?
    requires Step(w, t).Ran? && w.threads[t].frames.Cons? && Steady(w, Step(w, t).w, t)
    requires var f, o := w.threads[t].frames.head, ObjectOf(w.rt, w.threads[t].control.e);
      f.InTry? && (f.clause.CatchAll? || o.ty in f.clause.types)
    ensures Explained(w, t, Step(w, t).w)
  {
    var w' := Step(w, t).w;
    var f, o, rest := w.threads[t].frames.head, ObjectOf(w.rt, w.threads[t].control.e), Spots(w.rt, w.threads[t].frames.tail);
    assert Seen(w, t, w') == One(Entered(o, f.handler, Length(rest)));
    forall tr ensures FollowThread(w.rt, w.threads[t], Append(Seen(w, t, w'), tr)) == FollowThread(w'.rt, w'.threads[t], tr) {
      CatchExplains(rest, f.clause, f.handler, o, tr);
    }
  }

  lemma CleansFollows(w: World, t: Tid)
    requires t in w.threads && t in w.rt.globals && w.threads[t].pending.Idle? && w.threads[t].control.Unwind?
    requires Step(w, t).Ran? && w.threads[t].frames.Cons? && Steady(w, Step(w, t).w, t) && w.threads[t].frames.head.Armed?
    ensures Explained(w, t, Step(w, t).w)
  {
    var w' := Step(w, t).w;
    var f, o, rest := w.threads[t].frames.head, ObjectOf(w.rt, w.threads[t].control.e), Spots(w.rt, w.threads[t].frames.tail);
    assert Seen(w, t, w') == One(Cleaned(f.cleanup, Length(rest)));
    forall tr ensures FollowThread(w.rt, w.threads[t], Append(Seen(w, t, w'), tr)) == FollowThread(w'.rt, w'.threads[t], tr) {
      CleanExplains(rest, f.cleanup, o, tr);
    }
  }

  lemma UnwindFollows(w: World, t: Tid)
    requires Inv(w) && t in w.threads && t in w.rt.globals && w.threads[t].pending.Idle? && w.threads[t].control.Unwind?
    requires Step(w, t).Ran? && Inv(Step(w, t).w)
    ensures Explained(w, t, Step(w, t).w)
  {
    UnwindSteady(w, t);
    var f, o := w.threads[t].frames.head, ObjectOf(w.rt, w.threads[t].control.e);
    if f.Armed? {
      CleansFollows(w, t);
    } else if f.InTry? && (f.clause.CatchAll? || o.ty in f.clause.types) {
      EntersFollows(w, t);
    } else {
      PassFollows(w, t);
    }
  }

  // ----- Statements that raise or assign -----

  lemma {:induction false} CurIs(rt: Runtime, frames: List<Frame>)
    ensures Cur(Spots(rt, frames)) == match Catches(frames) case Nil => None case Cons(e, _) => Some(ObjectOf(rt, e))
  {
    match frames
    case Nil =>
    case Cons(_, rest) => CurIs(rt, rest);
  }

  // The caught list starts with the exception of the innermost handler.
  lemma CaughtIsCur(w: World, t: Tid)
    requires Inv(w) && t in w.threads
    ensures t in w.rt.globals
    ensures match w.rt.globals[t].caught
      case None => Cur(Spots(w.rt, w.threads[t].frames)) == None
      case Some(e) => Typed(w.rt, e) && Cur(Spots(w.rt, w.threads[t].frames)) == Some(ObjectOf(w.rt, e))
  {
    var frames := w.threads[t].frames;
    assert ThreadOk(w.rt, t, w.threads[t]);
    CaughtList.RunsExact(Catches(frames));
    CurIs(w.rt, frames);
    MentionsActive(frames);
    ThreadTyped(w, t);
  }

  // A step that leaves the frames as they are.
  lemma FrameSpots(w: World, t: Tid)
    requires Inv(w) && Step(w, t).Ran? && t in w.threads && Inv(Step(w, t).w) && t in Step(w, t).w.threads
    requires Step(w, t).w.threads[t].frames == w.threads[t].frames
    ensures Spots(Step(w, t).w.rt, w.threads[t].frames) == Spots(w.rt, w.threads[t].frames)
  {
    FreshUnknown(w);
    StepKinds(w, t);
    ThreadTyped(w, t);
    ThreadTyped(Step(w, t).w, t);
    SameSpots(w.rt, Step(w, t).w.rt, w.threads[t].frames);
  }

  lemma ThrowFollows(w: World, t: Tid, ty: nat)
    requires Runs(w, t, Stmt.Throw(ty)) && Step(w, t).Ran? && Inv(w) && Inv(Step(w, t).w)
    ensures Explained(w, t, Step(w, t).w)
  {
    FrameSpots(w, t);
    assert ObjectOf(Step(w, t).w.rt, Fresh(w)) == Object(Fresh(w), ty);
  }

  lemma RethrowFollows(w: World, t: Tid)
    requires Runs(w, t, Stmt.Rethrow) && Step(w, t).Ran? && Inv(w) && Inv(Step(w, t).w)
    ensures Explained(w, t, Step(w, t).w)
  {
    FrameSpots(w, t);
    CaughtIsCur(w, t);
    var e := w.rt.globals[t].caught.value;
    FreshUnknown(w);
    StepKinds(w, t);
    SameObject(w.rt, Step(w, t).w.rt, e);
  }

  // Nothing below the thread's statement changes its meaning.
  ghost predicate Framed(w: World, w': World, t: Tid)
    requires t in w.threads
  {
    t in w'.threads && w'.threads[t].frames == w.threads[t].frames
    && Spots(w'.rt, w.threads[t].frames) == Spots(w.rt, w.threads[t].frames)
  }

  lemma AppendTwo(a: Event, b: Event, tr: List<Event>)
    ensures Append(Cons(a, One(b)), tr) == Cons(a, Cons(b, tr)) && Append(One(a), tr) == Cons(a, tr)
  {
    assert Append(One(b), tr) == Cons(b, Append(Nil, tr));
  }

  lemma ReadsAndRaises(w: World, t: Tid, src: Handle)
    requires Runs(w, t, ThrowFrom(src)) && Step(w, t).Ran? && Framed(w, Step(w, t).w, t)
    requires src in w.ptrs ==> ObjectOf(Step(w, t).w.rt, Fresh(w)) == ObjectOf(w.rt, w.ptrs[src])
    ensures Explained(w, t, Step(w, t).w)
  {
    var w' := Step(w, t).w;
    forall tr ensures FollowThread(w.rt, w.threads[t], Append(Seen(w, t, w'), tr)) == FollowThread(w'.rt, w'.threads[t], tr) {
      AppendTwo(Read(src, Value(w, src)), Raised(ObjectOf(w'.rt, Fresh(w))), tr);
    }
  }

  lemma ThrowFromFollows(w: World, t: Tid, src: Handle)
    requires Runs(w, t, ThrowFrom(src)) && Step(w, t).Ran? && Inv(w) && Inv(Step(w, t).w)
    ensures Explained(w, t, Step(w, t).w)
  {
    FrameSpots(w, t);
    if src in w.ptrs {
      PointsAtLive(w, src);
      FreshUnknown(w);
      DependentObject(w, t, src);
    }
    ReadsAndRaises(w, t, src);
  }

  lemma DependentObject(w: World, t: Tid, src: Handle)
    requires Runs(w, t, ThrowFrom(src)) && Step(w, t).Ran? && src in w.ptrs && Fresh(w) !in w.rt.headers
    requires Shared(w.rt, w.ptrs[src]) && w.rt.headers[w.ptrs[src]].kind.Primary?
    ensures ObjectOf(Step(w, t).w.rt, Fresh(w)) == ObjectOf(w.rt, w.ptrs[src])
  {
  }

  lemma Captures(w: World, t: Tid, dst: Handle)
    requires Runs(w, t, Capture(dst)) && Step(w, t).Ran? && Framed(w, Step(w, t).w, t)
    requires match w.rt.globals[t].caught
      case None => Cur(Spots(w.rt, w.threads[t].frames)) == None
      case Some(e) => Typed(w.rt, e) && Cur(Spots(w.rt, w.threads[t].frames)) == Some(ObjectOf(w.rt, e))
    ensures Explained(w, t, Step(w, t).w)
  {
    var w' := Step(w, t).w;
    if w.rt.globals[t].caught.Some? {
      var e := w.rt.globals[t].caught.value;
      assert ObjectOf(w'.rt, Real(w.rt.headers, e)) == ObjectOf(w.rt, e);
      assert Value(w', dst) == Some(ObjectOf(w.rt, e));
    }
  }

  lemma CaptureFollows(w: World, t: Tid, dst: Handle)
    requires Runs(w, t, Capture(dst)) && Step(w, t).Ran? && Inv(w) && Inv(Step(w, t).w)
    ensures Explained(w, t, Step(w, t).w)
  {
    FrameSpots(w, t);
    CaughtIsCur(w, t);
    Captures(w, t, dst);
  }

  lemma Copies(w: World, t: Tid, dst: Handle, src: Handle)
    requires Runs(w, t, Copy(dst, src)) && Step(w, t).Ran? && Framed(w, Step(w, t).w, t)
    requires src in w.ptrs ==> Typed(w.rt, w.ptrs[src])
    ensures Explained(w, t, Step(w, t).w)
  {
    var w' := Step(w, t).w;
    assert Value(w', dst) == Value(w, src);
    forall tr ensures FollowThread(w.rt, w.threads[t], Append(Seen(w, t, w'), tr)) == FollowThread(w'.rt, w'.threads[t], tr) {
      AppendTwo(Read(src, Value(w, src)), Assigned(dst, Value(w, src)), tr);
    }
  }

  lemma CopyFollows(w: World, t: Tid, dst: Handle, src: Handle)
    requires Runs(w, t, Copy(dst, src)) && Step(w, t).Ran? && Inv(w) && Inv(Step(w, t).w)
    ensures Explained(w, t, Step(w, t).w)
  {
    FrameSpots(w, t);
    if src in w.ptrs {
      PointsAtLive(w, src);
    }
    Copies(w, t, dst, src);
  }

  lemma MakesOrResets(w: World, t: Tid, s: Stmt)
    requires Runs(w, t, s) && (s.Make? || s.Reset?) && Step(w, t).Ran? && Framed(w, Step(w, t).w, t)
    ensures Explained(w, t, Step(w, t).w)
  {
    var w' := Step(w, t).w;
    if s.Make? {
      assert ObjectOf(w'.rt, Fresh(w)) == Object(Fresh(w), s.ty);
      assert Value(w', s.dst) == Some(Object(Fresh(w), s.ty));
    }
  }

  lemma AssignFollows(w: World, t: Tid, s: Stmt)
    requires Runs(w, t, s) && (s.Make? || s.Reset?) && Step(w, t).Ran? && Inv(w) && Inv(Step(w, t).w)
    ensures Explained(w, t, Step(w, t).w)
  {
    FrameSpots(w, t);
    MakesOrResets(w, t, s);
  }

  // ----- All steps -----

  ghost predicate OnlyMoves(w: World, w': World, u: Tid) {
    forall t :: t in w.threads ==> t in w'.threads && (t != u ==> w'.threads[t] == w.threads[t])
  }

  lemma RunMoves(w: World, u: Tid, s: Stmt)
    requires u in w.threads && u in w.rt.globals && StepRun(w, u, s).Ran?
    ensures OnlyMoves(w, StepRun(w, u, s).w, u)
  {
  }

  lemma UnwindMoves(w: World, u: Tid, e: Id)
    requires u in w.threads && u in w.rt.globals && StepUnwind(w, u, e).Ran?
    ensures OnlyMoves(w, StepUnwind(w, u, e).w, u)
  {
  }

  lemma OthersStay(w: World, u: Tid)
    requires Step(w, u).Ran?
    ensures OnlyMoves(w, Step(w, u).w, u)
    ensures u !in w.threads || u !in w.rt.globals ==> Step(w, u).w == w
  {
    if u in w.threads && u in w.rt.globals && w.threads[u].pending.Idle? {
      if w.threads[u].control.Run? {
        RunMoves(w, u, w.threads[u].control.s);
      } else {
        UnwindMoves(w, u, w.threads[u].control.e);
      }
    }
  }

  lemma ReleaseStays(w: World, t: Tid)
    requires t in w.threads && t in w.rt.globals && !w.threads[t].pending.Idle? && Step(w, t).Ran?
    ensures var w' := Step(w, t).w; t in w'.threads && w'.threads[t].(pending := Idle) == w.threads[t].(pending := Idle)
    ensures Step(w, t).w.ptrs == w.ptrs
  {
  }

  lemma RunStepFollows(w: World, t: Tid, s: Stmt)
    requires Runs(w, t, s) && Step(w, t).Ran? && Inv(w) && Inv(Step(w, t).w)
    ensures Explained(w, t, Step(w, t).w)
  {
    match s
    case Skip => ReturnFollows(w, t);
    case Abort =>
    case Throw(ty) => ThrowFollows(w, t, ty);
    case Rethrow => RethrowFollows(w, t);
    case Capture(dst) => CaptureFollows(w, t, dst);
    case Copy(dst, src) => CopyFollows(w, t, dst, src);
    case Make(_, _) => AssignFollows(w, t, s);
    case Reset(_) => AssignFollows(w, t, s);
    case ThrowFrom(src) => ThrowFromFollows(w, t, src);
    case _ => EnterFollows(w, t, s);
  }

  // What thread t does in a step of thread u.
  function Does(w: World, u: Tid, t: Tid, w': World): List<Event>
    requires t in w.threads && t in w'.threads
  {
    if u == t then Seen(w, t, w') else Nil
  }

  lemma StepFollows(w: World, u: Tid, t: Tid, tr: List<Event>)
    requires Inv(w) && t in w.threads && Step(w, u).Ran?
    ensures t in Step(w, u).w.threads
    ensures var w' := Step(w, u).w;
      FollowThread(w.rt, w.threads[t], Append(Does(w, u, t, w'), tr)) == FollowThread(w'.rt, w'.threads[t], tr)
  {
    StepKeeps(w, u);
    OthersStay(w, u);
    if u != t {
      SameThread(w, u, t, tr);
    } else if !w.threads[t].pending.Idle? {
      ReleaseStays(w, t);
      SameThread(w, t, t, tr);
    } else if w.threads[t].control.Run? {
      RunStepFollows(w, t, w.threads[t].control.s);
    } else {
      UnwindFollows(w, t);
    }
  }

  lemma {:induction false} RunFollows(w: World, schedule: List<Tid>, t: Tid)
    requires Inv(w) && t in w.threads && Execute(w, schedule).Ran?
    ensures var w' := Execute(w, schedule).w;
      t in w'.threads && FollowThread(w.rt, w.threads[t], HistoryOf(w, schedule, t)) == FollowThread(w'.rt, w'.threads[t], Nil)
    decreases schedule
  {
    match schedule
    case Nil =>
    case Cons(u, rest) =>
      var w' := Step(w, u).w;
      StepKeeps(w, u);
      StepFollows(w, u, t, HistoryOf(w', rest, t));
      RunFollows(w', rest, t);
  }

  // ----- Memory -----

  lemma {:induction false} AppendReplays(mem: map<Handle, Object>, a: List<Event>, b: List<Event>)
    ensures Replay(mem, Append(a, b)) == match Replay(mem, a) case None => None case Some(next) => Replay(next, b)
    decreases a
  {
    match a
    case Nil =>
    case Cons(Assigned(dst, value), rest) => AppendReplays(if value.Some? then mem[dst := value.value] else mem - {dst}, rest, b);
    case Cons(_, rest) => AppendReplays(mem, rest, b);
  }

  lemma ValueStays(w: World, u: Tid, h: Handle)
    requires Inv(w) && Step(w, u).Ran? && Inv(Step(w, u).w)
    requires h in w.ptrs && h in Step(w, u).w.ptrs && Step(w, u).w.ptrs[h] == w.ptrs[h]
    ensures ObjectOf(Step(w, u).w.rt, w.ptrs[h]) == ObjectOf(w.rt, w.ptrs[h])
  {
    FreshUnknown(w);
    StepKinds(w, u);
    PointsAtLive(w, h);
    PointsAtLive(Step(w, u).w, h);
    SameObject(w.rt, Step(w, u).w.rt, w.ptrs[h]);
  }

  // All variables hold what they held.
  lemma SameMemory(w: World, u: Tid)
    requires Inv(w) && Step(w, u).Ran? && Inv(Step(w, u).w) && Step(w, u).w.ptrs == w.ptrs
    ensures Memory(Step(w, u).w) == Memory(w)
  {
    var w' := Step(w, u).w;
    forall h | h in w.ptrs ensures ObjectOf(w'.rt, w.ptrs[h]) == ObjectOf(w.rt, w.ptrs[h]) {
      ValueStays(w, u, h);
    }
    EqualMemory(w, w');
  }

  lemma EqualMemory(w: World, w': World)
    requires w'.ptrs == w.ptrs && forall h :: h in w.ptrs ==> ObjectOf(w'.rt, w.ptrs[h]) == ObjectOf(w.rt, w.ptrs[h])
    ensures Memory(w') == Memory(w)
  {
  }

  // All variables but one hold what they held.
  lemma AssignMemory(w: World, w': World, dst: Handle)
    requires w'.ptrs - {dst} == w.ptrs - {dst}
    requires forall h :: h in w.ptrs && h in w'.ptrs && w'.ptrs[h] == w.ptrs[h] && h != dst ==>
      ObjectOf(w'.rt, w.ptrs[h]) == ObjectOf(w.rt, w.ptrs[h])
    ensures Memory(w') == match Value(w', dst) case Some(o) => Memory(w)[dst := o] case None => Memory(w) - {dst}
  {
    forall h | h != dst ensures h in w.ptrs <==> h in w'.ptrs
      ensures h in w.ptrs ==> w'.ptrs[h] == w.ptrs[h]
    {
      assert h in w.ptrs <==> h in (w.ptrs - {dst});
      assert h in w'.ptrs <==> h in (w'.ptrs - {dst});
      assert h in w.ptrs ==> (w.ptrs - {dst})[h] == w.ptrs[h] && (w'.ptrs - {dst})[h] == w'.ptrs[h];
    }
  }

  predicate Assigning(s: Stmt) {
    s.Capture? || s.Copy? || s.Make? || s.Reset?
  }

  function Target(s: Stmt): Handle
    requires Assigning(s)
  {
    match s case Capture(dst) => dst case Copy(dst, _) => dst case Make(dst, _) => dst case Reset(dst) => dst
  }

  lemma StepPtrs(w: World, t: Tid)
    requires t in w.threads && t in w.rt.globals && w.threads[t].pending.Idle? && Step(w, t).Ran?
    ensures var c := w.threads[t].control;
      if c.Run? && Assigning(c.s) then Step(w, t).w.ptrs - {Target(c.s)} == w.ptrs - {Target(c.s)} else Step(w, t).w.ptrs == w.ptrs
  {
  }

  lemma AssignedMemory(w: World, t: Tid, dst: Handle)
    requires Inv(w) && Step(w, t).Ran? && Inv(Step(w, t).w) && Step(w, t).w.ptrs - {dst} == w.ptrs - {dst}
    ensures var w' := Step(w, t).w;
      Memory(w') == match Value(w', dst) case Some(o) => Memory(w)[dst := o] case None => Memory(w) - {dst}
  {
    var w' := Step(w, t).w;
    forall h | h in w.ptrs && h in w'.ptrs && w'.ptrs[h] == w.ptrs[h] && h != dst
      ensures ObjectOf(w'.rt, w.ptrs[h]) == ObjectOf(w.rt, w.ptrs[h])
    {
      ValueStays(w, t, h);
    }
    AssignMemory(w, w', dst);
  }

  lemma AssignReplays(w: World, t: Tid, s: Stmt)
    requires Runs(w, t, s) && Assigning(s) && Step(w, t).Ran? && t in Step(w, t).w.threads
    requires var w', dst := Step(w, t).w, Target(s);
      Memory(w') == match Value(w', dst) case Some(o) => Memory(w)[dst := o] case None => Memory(w) - {dst}
    ensures Replay(Memory(w), Seen(w, t, Step(w, t).w)) == Some(Memory(Step(w, t).w))
  {
    var w' := Step(w, t).w;
    assert Replay(Memory(w), One(Assigned(Target(s), Value(w', Target(s))))) == Some(Memory(w'));
  }

  // Events that leave the memory alone.
  lemma QuietReplays(w: World, t: Tid)
    requires t in w.threads && t in w.rt.globals && Step(w, t).Ran? && t in Step(w, t).w.threads
    requires w.threads[t].pending.Idle? ==> !(w.threads[t].control.Run? && Assigning(w.threads[t].control.s))
    ensures Replay(Memory(w), Seen(w, t, Step(w, t).w)) == Some(Memory(w))
  {
    var w', c := Step(w, t).w, w.threads[t].control;
    RaiseReplays(Memory(w), w', t);
    if c.Run? && c.s.ThrowFrom? {
      assert Value(w, c.s.src) == Lookup(Memory(w), c.s.src);
    }
  }

  lemma RaiseReplays(mem: map<Handle, Object>, w: World, t: Tid)
    requires t in w.threads
    ensures Replay(mem, SeenRaise(w, t)) == Some(mem)
  {
  }

  lemma StepReplays(w: World, t: Tid)
    requires Inv(w) && t in w.threads && Step(w, t).Ran?
    ensures t in Step(w, t).w.threads && Replay(Memory(w), Seen(w, t, Step(w, t).w)) == Some(Memory(Step(w, t).w))
  {
    StepKeeps(w, t);
    OthersStay(w, t);
    var th := w.threads[t];
    if th.pending.Idle? && th.control.Run? && Assigning(th.control.s) {
      StepPtrs(w, t);
      AssignedMemory(w, t, Target(th.control.s));
      AssignReplays(w, t, th.control.s);
    } else {
      QuietReplays(w, t);
      if th.pending.Idle? { StepPtrs(w, t); } else { ReleaseStays(w, t); }
      SameMemory(w, t);
    }
  }

  lemma {:induction false} RunReplays(w: World, schedule: List<Tid>)
    requires Inv(w) && Execute(w, schedule).Ran?
    ensures Replay(Memory(w), History(w, schedule)) == Some(Memory(Execute(w, schedule).w))
    decreases schedule
  {
    match schedule
    case Nil =>
    case Cons(u, rest) =>
      var w' := Step(w, u).w;
      StepKeeps(w, u);
      RunReplays(w', rest);
      if u in w.threads {
        StepReplays(w, u);
        AppendReplays(Memory(w), Seen(w, u, w'), History(w', rest));
      }
  }

  // ----- Programs come to an end -----

  // A bound on the steps that a thread has left.
  function StmtSize(s: Stmt): nat {
    match s
    case Skip => 1
    case Then(a, b) => 1 + StmtSize(a) + StmtSize(b)
    case Try(b, _, handler) => 6 + StmtSize(b) + StmtSize(handler)
    case Guarded(b, cleanup) => 2 + StmtSize(b) + StmtSize(cleanup)
    case _ => 5
  }

  function FrameSize(f: Frame): nat {
    match f
    case AndThen(s) => StmtSize(s)
    case InTry(_, handler) => 5 + StmtSize(handler)
    case InCatch(_) => 4
    case Armed(cleanup) => 1 + StmtSize(cleanup)
    case InCleanup(_) => 1
  }

  function FramesSize(frames: List<Frame>): nat {
    match frames
    case Nil => 0
    case Cons(f, rest) => FrameSize(f) + FramesSize(rest)
  }

  function ThreadSize(th: Thread): nat {
    (match th.control case Run(s) => StmtSize(s) case Unwind(_) => 1)
    + FramesSize(th.frames)
    + (match th.pending case Idle => 0 case Dec(_, _) => 3 case Free(_, _) => 2 case Drop(_) => 1)
  }

  predicate Finished(th: Thread) {
    th == Thread(Run(Skip), Nil, Idle)
  }

  lemma StmtPositive(s: Stmt)
    ensures StmtSize(s) > 0
  {
  }

  lemma RunShrinks(w: World, t: Tid, s: Stmt)
    requires Runs(w, t, s) && !Finished(w.threads[t]) && StepRun(w, t, s).Ran?
    ensures var w' := StepRun(w, t, s).w; t in w'.threads && ThreadSize(w'.threads[t]) < ThreadSize(w.threads[t])
  {
  }

  lemma UnwindShrinks(w: World, t: Tid, e: Id)
    requires t in w.threads && t in w.rt.globals && w.threads[t].pending.Idle? && w.threads[t].control == Unwind(e)
    requires StepUnwind(w, t, e).Ran?
    ensures var w' := StepUnwind(w, t, e).w; t in w'.threads && ThreadSize(w'.threads[t]) < ThreadSize(w.threads[t])
  {
    var frames := w.threads[t].frames;
    if frames.Cons? && frames.head.AndThen? {
      StmtPositive(frames.head.next);
    }
  }

  lemma StepShrinks(w: World, t: Tid)
    requires t in w.threads && t in w.rt.globals && Step(w, t).Ran?
    ensures t in Step(w, t).w.threads
    ensures Finished(w.threads[t]) || ThreadSize(Step(w, t).w.threads[t]) < ThreadSize(w.threads[t])
    ensures Finished(w.threads[t]) ==> Step(w, t).w.threads[t] == w.threads[t]
  {
    var th := w.threads[t];
    if th.pending.Idle? && !Finished(th) {
      if th.control.Run? {
        RunShrinks(w, t, th.control.s);
      } else {
        UnwindShrinks(w, t, th.control.e);
      }
    }
  }

  function Turns(schedule: List<Tid>, t: Tid): nat {
    match schedule
    case Nil => 0
    case Cons(u, rest) => Turns(rest, t) + if u == t then 1 else 0
  }

  lemma {:induction false} Finishes(w: World, schedule: List<Tid>, t: Tid)
    requires Inv(w) && t in w.threads && Execute(w, schedule).Ran?
    requires ThreadSize(w.threads[t]) <= Turns(schedule, t) || Finished(w.threads[t])
    ensures var w' := Execute(w, schedule).w; t in w'.threads && Finished(w'.threads[t])
    decreases schedule
  {
    match schedule
    case Nil => SizePositive(w.threads[t]);
    case Cons(u, rest) =>
      StepKeeps(w, u);
      OthersStay(w, u);
      if u == t {
        StepShrinks(w, t);
      }
      Finishes(Step(w, u).w, rest, t);
  }

  lemma SizePositive(th: Thread)
    ensures ThreadSize(th) > 0
  {
    if th.control.Run? {
      StmtPositive(th.control.s);
    }
  }

  // ----- The theorem -----

  lemma {:induction false} NothingWrong(s: Stmt, cur: Option<Object>, level: nat)
    ensures var p := Follow(s, cur, level, Nil); p == Underway || (p.Done? && p.rest == Nil)
    decreases s, 0
  {
    match s
    case Then(a, b) =>
      NothingWrong(a, cur, level + 1);
      var p := Follow(a, cur, level + 1, Nil);
      if p.Done? {
        LeavesNothing(Next(b), cur, level, p.ending);
      }
    case Try(b, clause, handler) =>
      NothingWrong(b, cur, level + 1);
      var p := Follow(b, cur, level + 1, Nil);
      if p.Done? {
        LeavesNothing(Trying(clause, handler), cur, level, p.ending);
      }
    case Guarded(b, cleanup) =>
      NothingWrong(b, cur, level + 1);
      var p := Follow(b, cur, level + 1, Nil);
      if p.Done? {
        LeavesNothing(Guarding(cleanup), cur, level, p.ending);
      }
    case _ =>
  }

  lemma {:induction false} LeavesNothing(f: Spot, cur: Option<Object>, level: nat, ending: Ending)
    ensures var p := Leave(f, cur, level, ending, Nil); p == Underway || (p.Done? && p.rest == Nil)
    decreases Waiting(f), 1
  {
    if f.Next? {
      NothingWrong(f.s, cur, level);
    }
  }

  lemma {:induction false} ContinuesNothing(spots: List<Spot>, p: Progress)
    requires p == Underway || (p.Done? && p.rest == Nil)
    ensures var q := Continue(spots, p); q == Underway || (q.Done? && q.rest == Nil)
    decreases spots
  {
    if p.Done? && spots.Cons? {
      LeavesNothing(spots.head, Cur(spots.tail), Length(spots.tail), p.ending);
      ContinuesNothing(spots.tail, Leave(spots.head, Cur(spots.tail), Length(spots.tail), p.ending, Nil));
    }
  }

  // Every run of every set of programs, at any moment: what each thread was seen to do is what its
  // program means so far, and all of it when the thread has finished; and exception_ptr variables
  // behave as variables.
  lemma RunMeans(programs: map<Tid, Stmt>, schedule: List<Tid>)
    requires Execute(Start(programs), schedule).Ran?
    ensures var w := Execute(Start(programs), schedule).w;
      && Replay(map[], History(Start(programs), schedule)) == Some(Memory(w))
      && forall t :: t in programs ==>
        && t in w.threads
        && var p := Follow(programs[t], None, 0, HistoryOf(Start(programs), schedule, t));
          && (p == Underway || (p.Done? && p.rest == Nil))
          && (Finished(w.threads[t]) ==> p == Done(Returned, Nil))
  {
    var start := Start(programs);
    var w := Execute(start, schedule).w;
    LifetimeTheorems.StartKeeps(programs);
    RunReplays(start, schedule);
    assert Memory(start) == map[];
    forall t | t in programs
      ensures t in w.threads
      ensures var p := Follow(programs[t], None, 0, HistoryOf(start, schedule, t));
        && (p == Underway || (p.Done? && p.rest == Nil))
        && (Finished(w.threads[t]) ==> p == Done(Returned, Nil))
    {
      RunFollows(start, schedule, t);
      var history := HistoryOf(start, schedule, t);
      assert FollowThread(start.rt, start.threads[t], history) == Follow(programs[t], None, 0, history);
      var th := w.threads[t];
      var spots := Spots(w.rt, th.frames);
      if th.control.Run? {
        NothingWrong(th.control.s, Cur(spots), Length(spots));
      }
      ContinuesNothing(spots, Begin(th.control, spots, w.rt, Nil));
    }
  }

  // A thread that was given as many turns as its program has steps has done all of it.
  lemma RunCompletes(programs: map<Tid, Stmt>, schedule: List<Tid>, t: Tid)
    requires Execute(Start(programs), schedule).Ran? && t in programs && StmtSize(programs[t]) <= Turns(schedule, t)
    ensures Follow(programs[t], None, 0, HistoryOf(Start(programs), schedule, t)) == Done(Returned, Nil)
  {
    LifetimeTheorems.StartKeeps(programs);
    Finishes(Start(programs), schedule, t);
    RunMeans(programs, schedule);
  }
}
