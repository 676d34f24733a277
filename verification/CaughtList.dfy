// The caught list as the run-length form of the stack of active catch blocks.
module CaughtList {
  import opened Lists
  import opened Abi

  datatype Entry = Entry(id: Id, count: nat)

  // Run-length encoding of a stack of active catch blocks, innermost first.
  function Runs(stack: List<Id>): List<Entry> {
    match stack
    case Nil => Nil
    case Cons(e, rest) =>
      match Runs(rest)
      case Nil => Cons(Entry(e, 1), Nil)
      case Cons(r, more) =>
        if r.id == e then Cons(Entry(e, r.count + 1), more) else Cons(Entry(e, 1), Cons(r, more))
  }

  function Ids(runs: List<Entry>): set<Id> {
    match runs
    case Nil => {}
    case Cons(r, rest) => {r.id} + Ids(rest)
  }

  function Repeat(e: Id, n: nat, tail: List<Id>): List<Id> {
    if n == 0 then tail else Cons(e, Repeat(e, n - 1, tail))
  }

  function Expand(runs: List<Entry>): List<Id> {
    match runs
    case Nil => Nil
    case Cons(r, rest) => Repeat(r.id, r.count, Expand(rest))
  }

  predicate Distinct(runs: List<Entry>) {
    match runs
    case Nil => true
    case Cons(r, rest) => r.id !in Ids(rest) && Distinct(rest)
  }

  // e is not in the stack, or is on top of it.
  predicate OnTop(e: Id, stack: List<Id>) {
    e in Elements(stack) ==> stack.head == e
  }

  // Catch blocks of the same exception are adjacent.
  predicate Contiguous(stack: List<Id>) {
    match stack
    case Nil => true
    case Cons(e, rest) => OnTop(e, rest) && Contiguous(rest)
  }

  function Abs(n: int): nat {
    if n < 0 then -n else n
  }

  // The linked list that starts at p holds exactly these entries; the sign of a count is ignored.
  predicate Chain(headers: map<Id, Header>, p: Option<Id>, runs: List<Entry>)
    decreases runs
  {
    match runs
    case Nil => p.None?
    case Cons(r, rest) =>
      && p == Some(r.id)
      && r.id in headers
      && Abs(headers[r.id].handlerCount) == r.count
      && Chain(headers, headers[r.id].next, rest)
  }

  lemma {:induction false} RunsExact(stack: List<Id>)
    ensures Expand(Runs(stack)) == stack && Ids(Runs(stack)) == Elements(stack)
    ensures stack.Cons? ==> Runs(stack).Cons? && Runs(stack).head.id == stack.head && Runs(stack).head.count > 0
  {
    match stack
    case Nil =>
    case Cons(e, rest) =>
      RunsExact(rest);
      var tail := Expand(Runs(rest));
      assert Repeat(e, 1, tail) == Cons(e, Repeat(e, 0, tail));
  }

  lemma {:induction false} RunsDistinct(stack: List<Id>)
    requires Contiguous(stack)
    ensures Distinct(Runs(stack))
  {
    match stack
    case Nil =>
    case Cons(e, rest) =>
      RunsDistinct(rest);
      RunsExact(rest);
  }

  // A list is left alone by updates of other headers, and of other fields.
  lemma {:induction false} ChainFrame(headers: map<Id, Header>, headers': map<Id, Header>, p: Option<Id>, runs: List<Entry>)
    requires Chain(headers, p, runs)
    requires forall e :: e in Ids(runs) && e in headers ==>
      e in headers' && headers'[e].next == headers[e].next && Abs(headers'[e].handlerCount) == Abs(headers[e].handlerCount)
    ensures Chain(headers', p, runs)
    decreases runs
  {
    match runs
    case Nil =>
    case Cons(r, rest) => ChainFrame(headers, headers', headers[r.id].next, rest);
  }

  // What a thread's caught list says about a stack of active catch blocks: its entries are the
  // runs of the stack, and a count is negative exactly for the exceptions in flight.
  ghost predicate Represents(rt: Runtime, t: Tid, stack: List<Id>, flight: set<Id>) {
    && t in rt.globals
    && Contiguous(stack)
    && Chain(rt.headers, rt.globals[t].caught, Runs(stack))
    && (forall e :: e in flight || e in Elements(stack) ==>
        e in rt.headers && Signed(rt.headers[e].handlerCount, e in Elements(stack), e in flight))
  }

  predicate Signed(count: int, caught: bool, inFlight: bool) {
    if !caught then count == 0 else if inFlight then count < 0 else count > 0
  }

  // __cxa_begin_catch pushes the exception that was in flight.
  lemma BeginCatchPushes(rt: Runtime, t: Tid, stack: List<Id>, flight: set<Id>, e: Id)
    requires Represents(rt, t, stack, flight)
    requires e in flight && OnTop(e, stack)
    ensures Represents(BeginCatch(rt, t, e), t, Cons(e, stack), flight - {e})
  {
    var rt' := BeginCatch(rt, t, e);
    RunsExact(stack);
    RunsDistinct(stack);
    if e in Elements(stack) {
      var runs := Runs(stack);
      ChainFrame(rt.headers, rt'.headers, rt.headers[e].next, runs.tail);
    } else {
      ChainFrame(rt.headers, rt'.headers, rt.globals[t].caught, Runs(stack));
    }
  }

  // __cxa_end_catch pops the innermost catch block, whoever is in flight; it asks for a release
  // exactly when that was the last catch block of an exception that is not in flight.
  lemma EndCatchPops(rt: Runtime, t: Tid, stack: List<Id>, flight: set<Id>)
    requires Represents(rt, t, stack, flight)
    requires stack.Cons?
    ensures HasCurrent(rt, t) && Current(rt, t) == stack.head
    ensures Represents(EndCatch(rt, t).0, t, stack.tail, flight)
    ensures EndCatch(rt, t).1 <==> stack.head !in Elements(stack.tail) && stack.head !in flight
  {
    var rt' := EndCatch(rt, t).0;
    var e := stack.head;
    var rest := stack.tail;
    RunsExact(stack);
    RunsDistinct(stack);
    RunsExact(rest);
    assert rt.globals[t].caught == Some(e);
    ChainFrame(rt.headers, rt'.headers, rt.headers[e].next, Runs(stack).tail);
  }

  // __cxa_rethrow leaves the stack alone and puts the innermost exception in flight; it is
  // refused exactly when there is none or when that exception is already in flight.
  lemma RethrowKeeps(rt: Runtime, t: Tid, stack: List<Id>, flight: set<Id>)
    requires Represents(rt, t, stack, flight)
    ensures MayRethrow(rt, t) <==> stack.Cons? && stack.head !in flight
    ensures MayRethrow(rt, t) ==>
      && rt.globals[t].caught == Some(stack.head)
      && Represents(Rethrow(rt, t), t, stack, flight + {stack.head})
  {
    RunsExact(stack);
    if MayRethrow(rt, t) {
      ChainFrame(rt.headers, Rethrow(rt, t).headers, rt.globals[t].caught, Runs(stack));
    }
  }

  // __cxa_throw leaves the stack alone and puts a new exception in flight.
  lemma ThrowKeeps(rt: Runtime, t: Tid, stack: List<Id>, flight: set<Id>, e: Id, ty: nat)
    requires Represents(rt, t, stack, flight)
    requires e !in rt.headers
    ensures Represents(Throw(rt, t, e, ty), t, stack, flight + {e})
  {
    RunsExact(stack);
    ChainFrame(rt.headers, Throw(rt, t, e, ty).headers, rt.globals[t].caught, Runs(stack));
  }

  lemma ThrowDependentKeeps(rt: Runtime, t: Tid, stack: List<Id>, flight: set<Id>, d: Id, p: Id)
    requires Represents(rt, t, stack, flight)
    requires d !in rt.headers && p in rt.headers
    ensures Represents(ThrowDependent(rt, t, d, p), t, stack, flight + {d})
  {
    RunsExact(stack);
    ChainFrame(rt.headers, ThrowDependent(rt, t, d, p).headers, rt.globals[t].caught, Runs(stack));
  }

  // Nothing that other threads do to their own headers, or to reference counts, disturbs a list.
  lemma RepresentsFrame(rt: Runtime, rt': Runtime, t: Tid, stack: List<Id>, flight: set<Id>)
    requires Represents(rt, t, stack, flight)
    requires t in rt'.globals && rt'.globals[t].caught == rt.globals[t].caught
    requires forall e :: e in flight || e in Elements(stack) ==>
      e in rt'.headers && rt'.headers[e].next == rt.headers[e].next && rt'.headers[e].handlerCount == rt.headers[e].handlerCount
    ensures Represents(rt', t, stack, flight)
  {
    RunsExact(stack);
    ChainFrame(rt.headers, rt'.headers, rt.globals[t].caught, Runs(stack));
  }
}
