// Structured C++ programs lowered to the exception ABI calls, run by any number of threads.
//
// A thread is a stack of frames and either runs a statement or unwinds with an exception. Every
// atomic access to a reference count, and every free, is a step of its own.
module Machine {
  import opened Lists
  import opened Abi

  type Handle = nat

  datatype Clause = CatchAll | Catch(types: set<nat>)

  datatype Stmt =
    | Skip
    | Abort
    | Throw(ty: nat)
    | Rethrow
    | Then(first: Stmt, second: Stmt)
    | Try(body: Stmt, clause: Clause, handler: Stmt)
    | Guarded(body: Stmt, cleanup: Stmt)          // a local object whose destructor is `cleanup`
    | Capture(dst: Handle)                        // dst = current_exception()
    | Copy(dst: Handle, src: Handle)
    | Make(dst: Handle, ty: nat)                  // dst = make_exception_ptr(...)
    | Reset(dst: Handle)
    | ThrowFrom(src: Handle)                      // rethrow_exception(src)

  datatype Frame =
    | AndThen(next: Stmt)
    | InTry(clause: Clause, handler: Stmt)
    | InCatch(e: Id)
    | Armed(cleanup: Stmt)
    | InCleanup(e: Id)                            // a cleanup runs; unwinding with e resumes after it

  datatype Control = Run(s: Stmt) | Unwind(e: Id)

  // What is left of releaseException: decrement p and, at zero, destroy it; then free a dependent.
  datatype Pending =
    | Idle
    | Dec(p: Id, dep: Option<Id>)
    | Free(p: Id, dep: Option<Id>)
    | Drop(d: Id)

  datatype Thread = Thread(control: Control, frames: List<Frame>, pending: Pending)

  datatype Birth = Birth(thread: Tid, primary: bool)

  datatype World = World(
    rt: Runtime,
    threads: map<Tid, Thread>,
    ptrs: map<Handle, Id>,                        // exception_ptr variables that are not null
    births: seq<Birth>,                           // identifiers are never reused
    destroyed: seq<Id>)                           // thrown objects whose destructor has run, in order

  // Halted: terminate or abort. Fault: a freed header would have been touched.
  datatype Outcome = Ran(w: World) | Halted | Fault

  predicate Matches(c: Clause, ty: nat) {
    c.CatchAll? || ty in c.types
  }

  // Phase 1 of the unwinder stops at a matching handler, or at a cleanup, where phase 2 terminates.
  predicate Handled(frames: List<Frame>, ty: nat) {
    match frames
    case Nil => false
    case Cons(f, rest) => f.InCleanup? || (f.InTry? && Matches(f.clause, ty)) || Handled(rest, ty)
  }

  function TypeOf(rt: Runtime, e: Id): nat
    requires Typed(rt, e)
  {
    rt.headers[Real(rt.headers, e)].kind.ty
  }

  function Put(w: World, t: Tid, th: Thread): World {
    w.(threads := w.threads[t := th])
  }

  function Fresh(w: World): Id {
    |w.births|
  }

  predicate Shared(rt: Runtime, p: Id) {
    p in rt.headers && rt.headers[p].referenceCount > 0
  }

  function Retain(rt: Runtime, p: Id): Runtime
    requires p in rt.headers
  {
    SetHeader(rt, p, AddReference(rt.headers[p], 1))
  }

  function ReleaseOf(rt: Runtime, e: Id): Pending
    requires e in rt.headers
  {
    match rt.headers[e].kind
    case Primary(_) => Dec(e, None)
    case Dependent(p) => Dec(p, Some(e))
  }

  function AfterPrimary(dep: Option<Id>): Pending {
    match dep
    case None => Idle
    case Some(d) => Drop(d)
  }

  // Assigns to an exception_ptr variable; the value it held is released afterwards.
  function Assign(w: World, t: Tid, dst: Handle, value: Option<Id>): World
    requires t in w.threads
  {
    var pending := if dst in w.ptrs then Dec(w.ptrs[dst], None) else Idle;
    var ptrs := if value.Some? then w.ptrs[dst := value.value] else w.ptrs - {dst};
    Put(w.(ptrs := ptrs), t, w.threads[t].(control := Run(Skip), pending := pending))
  }

  // Raises e, already set up in rt, in thread t.
  function Raise(w: World, t: Tid, rt: Runtime, e: Id): Outcome
    requires t in w.threads
  {
    if !Typed(rt, e) then Fault
    else if !Handled(w.threads[t].frames, TypeOf(rt, e)) then Halted
    else Ran(Put(w.(rt := rt), t, w.threads[t].(control := Unwind(e))))
  }

  function LeaveCatch(w: World, t: Tid, rest: List<Frame>): Outcome
    requires t in w.threads && t in w.rt.globals
  {
    if w.rt.globals[t].caught.None? then Halted
    else if !HasCurrent(w.rt, t) then Fault
    else
      var e := Current(w.rt, t);
      var (rt, release) := EndCatch(w.rt, t);
      var pending := if release then ReleaseOf(w.rt, e) else Idle;
      Ran(Put(w.(rt := rt), t, w.threads[t].(frames := rest, pending := pending)))
  }

  function StepReturn(w: World, t: Tid): Outcome
    requires t in w.threads && t in w.rt.globals
  {
    var th := w.threads[t];
    match th.frames
    case Nil => Ran(w)
    case Cons(AndThen(next), rest) => Ran(Put(w, t, th.(control := Run(next), frames := rest)))
    case Cons(InTry(_, _), rest) => Ran(Put(w, t, th.(frames := rest)))
    case Cons(Armed(cleanup), rest) => Ran(Put(w, t, th.(control := Run(cleanup), frames := rest)))
    case Cons(InCleanup(e), rest) => Ran(Put(w, t, th.(control := Unwind(e), frames := rest)))
    case Cons(InCatch(_), rest) => LeaveCatch(w, t, rest)
  }

  function StepUnwind(w: World, t: Tid, e: Id): Outcome
    requires t in w.threads && t in w.rt.globals
  {
    var th := w.threads[t];
    match th.frames
    case Nil => Halted
    case Cons(AndThen(_), rest) => Ran(Put(w, t, th.(frames := rest)))
    case Cons(InTry(clause, handler), rest) =>
      if !Typed(w.rt, e) then Fault
      else if Matches(clause, TypeOf(w.rt, e)) then
        Ran(Put(w.(rt := BeginCatch(w.rt, t, e)), t, th.(control := Run(handler), frames := Cons(InCatch(e), rest))))
      else Ran(Put(w, t, th.(frames := rest)))
    case Cons(Armed(cleanup), rest) =>
      Ran(Put(w, t, th.(control := Run(cleanup), frames := Cons(InCleanup(e), rest))))
    case Cons(InCleanup(_), _) => Halted
    case Cons(InCatch(_), rest) => LeaveCatch(w, t, rest)
  }

  function StepThrow(w: World, t: Tid, ty: nat): Outcome
    requires t in w.threads && t in w.rt.globals
  {
    var e := Fresh(w);
    Raise(w.(births := w.births + [Birth(t, true)]), t, Abi.Throw(w.rt, t, e, ty), e)
  }

  function StepRethrow(w: World, t: Tid): Outcome
    requires t in w.threads && t in w.rt.globals
  {
    if !MayRethrow(w.rt, t) then Halted
    else Raise(w, t, Abi.Rethrow(w.rt, t), w.rt.globals[t].caught.value)
  }

  function StepThrowFrom(w: World, t: Tid, src: Handle): Outcome
    requires t in w.threads && t in w.rt.globals
  {
    if src !in w.ptrs then Ran(Put(w, t, w.threads[t].(control := Run(Skip))))
    else if !Shared(w.rt, w.ptrs[src]) then Fault
    else
      var d := Fresh(w);
      Raise(w.(births := w.births + [Birth(t, false)]), t, ThrowDependent(w.rt, t, d, w.ptrs[src]), d)
  }

  function StepCapture(w: World, t: Tid, dst: Handle): Outcome
    requires t in w.threads && t in w.rt.globals
  {
    if w.rt.globals[t].caught.None? then Ran(Assign(w, t, dst, None))
    else if !HasCurrent(w.rt, t) then Fault
    else
      var p := Real(w.rt.headers, Current(w.rt, t));
      if !Shared(w.rt, p) then Fault
      else Ran(Assign(w.(rt := Retain(w.rt, p)), t, dst, Some(p)))
  }

  function StepCopy(w: World, t: Tid, dst: Handle, src: Handle): Outcome
    requires t in w.threads
  {
    if src !in w.ptrs then Ran(Assign(w, t, dst, None))
    else if !Shared(w.rt, w.ptrs[src]) then Fault
    else Ran(Assign(w.(rt := Retain(w.rt, w.ptrs[src])), t, dst, Some(w.ptrs[src])))
  }

  // __cxa_init_primary_exception leaves the count at zero; the exception_ptr then takes a reference.
  function StepMake(w: World, t: Tid, dst: Handle, ty: nat): Outcome
    requires t in w.threads
  {
    var e := Fresh(w);
    var rt := SetHeader(w.rt, e, Header(Primary(ty), 0, 0, None));
    Ran(Assign(w.(rt := Retain(rt, e), births := w.births + [Birth(t, true)]), t, dst, Some(e)))
  }

  function StepRelease(w: World, t: Tid): Outcome
    requires t in w.threads
  {
    var th := w.threads[t];
    match th.pending
    case Idle => Ran(w)
    case Dec(p, dep) =>
      if !Shared(w.rt, p) then Fault
      else
        var h := AddReference(w.rt.headers[p], -1);
        var next := if h.referenceCount == 0 then Free(p, dep) else AfterPrimary(dep);
        Ran(Put(w.(rt := SetHeader(w.rt, p, h)), t, th.(pending := next)))
    case Free(p, dep) =>
      if p !in w.rt.headers then Fault
      else Ran(Put(w.(rt := w.rt.(headers := w.rt.headers - {p}), destroyed := w.destroyed + [p]), t,
                   th.(pending := AfterPrimary(dep))))
    case Drop(d) =>
      if d !in w.rt.headers then Fault
      else Ran(Put(w.(rt := w.rt.(headers := w.rt.headers - {d})), t, th.(pending := Idle)))
  }

  function StepRun(w: World, t: Tid, s: Stmt): Outcome
    requires t in w.threads && t in w.rt.globals
  {
    var th := w.threads[t];
    match s
    case Skip => StepReturn(w, t)
    case Abort => Halted
    case Throw(ty) => StepThrow(w, t, ty)
    case Rethrow => StepRethrow(w, t)
    case Then(a, b) => Ran(Put(w, t, th.(control := Run(a), frames := Cons(AndThen(b), th.frames))))
    case Try(b, c, h) => Ran(Put(w, t, th.(control := Run(b), frames := Cons(InTry(c, h), th.frames))))
    case Guarded(b, c) => Ran(Put(w, t, th.(control := Run(b), frames := Cons(Armed(c), th.frames))))
    case Capture(dst) => StepCapture(w, t, dst)
    case Copy(dst, src) => StepCopy(w, t, dst, src)
    case Make(dst, ty) => StepMake(w, t, dst, ty)
    case Reset(dst) => Ran(Assign(w, t, dst, None))
    case ThrowFrom(src) => StepThrowFrom(w, t, src)
  }

  // One step of thread t.
  function Step(w: World, t: Tid): Outcome {
    if t !in w.threads || t !in w.rt.globals then Ran(w)
    else if !w.threads[t].pending.Idle? then StepRelease(w, t)
    else match w.threads[t].control
      case Run(s) => StepRun(w, t, s)
      case Unwind(e) => StepUnwind(w, t, e)
  }

  // A run under a schedule: the thread to move, step by step.
  function Execute(w: World, schedule: List<Tid>): Outcome
    decreases schedule
  {
    match schedule
    case Nil => Ran(w)
    case Cons(t, rest) =>
      match Step(w, t)
      case Ran(w') => Execute(w', rest)
      case Halted => Halted
      case Fault => Fault
  }

  // Every thread starts its program with nothing thrown and nothing caught.
  function Start(programs: map<Tid, Stmt>): World {
    World(
      Runtime(map[], map t | t in programs :: Globals(None, 0)),
      map t | t in programs :: Thread(Run(programs[t]), Nil, Idle),
      map[], [], [])
  }
}
