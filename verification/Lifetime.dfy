// What holds in every state of every run: the caught lists mirror the active catch blocks, and
// reference counts are exact.
module Lifetime {
  import opened Lists
  import opened Abi
  import opened CaughtList
  import opened Machine
  import opened Ledger

  // ----- One thread -----

  // The active catch blocks of a thread, innermost first.
  function Catches(frames: List<Frame>): List<Id> {
    match frames
    case Nil => Nil
    case Cons(f, rest) => if f.InCatch? then Cons(f.e, Catches(rest)) else Catches(rest)
  }

  // The exceptions whose unwinding waits for a cleanup to finish.
  function Resuming(frames: List<Frame>): List<Id> {
    match frames
    case Nil => Nil
    case Cons(f, rest) => if f.InCleanup? then Cons(f.e, Resuming(rest)) else Resuming(rest)
  }

  function InFlight(th: Thread): List<Id> {
    if th.control.Unwind? then Cons(th.control.e, Resuming(th.frames)) else Resuming(th.frames)
  }

  function Flying(th: Thread): set<Id> {
    Elements(InFlight(th))
  }

  function Active(th: Thread): set<Id> {
    Flying(th) + Elements(Catches(th.frames))
  }

  // An exception in flight is not among those in flight below it, and if it is caught at all, it
  // is the innermost one caught; an exception is not caught above its own cleanup.
  predicate MayFly(e: Id, frames: List<Frame>) {
    e !in Elements(Resuming(frames)) && OnTop(e, Catches(frames))
  }

  predicate Nested(frames: List<Frame>) {
    match frames
    case Nil => true
    case Cons(f, rest) => (f.InCatch? || f.InCleanup? ==> MayFly(f.e, rest)) && Nested(rest)
  }

  // Unwinding always has a frame to stop at.
  predicate Awaited(rt: Runtime, frames: List<Frame>) {
    match frames
    case Nil => true
    case Cons(f, rest) => (f.InCleanup? ==> Lands(rt, f.e, rest)) && Awaited(rt, rest)
  }

  predicate Lands(rt: Runtime, e: Id, frames: List<Frame>) {
    Typed(rt, e) && Handled(frames, TypeOf(rt, e))
  }

  ghost predicate ThreadOk(rt: Runtime, t: Tid, th: Thread) {
    && Represents(rt, t, Catches(th.frames), Flying(th))
    && rt.globals[t].uncaught == Length(InFlight(th))
    && Nested(th.frames)
    && Awaited(rt, th.frames)
    && (th.control.Unwind? ==> MayFly(th.control.e, th.frames) && Lands(rt, th.control.e, th.frames))
  }

  // ----- All threads -----

  function Accounts(headers: map<Id, Header>): map<Id, Account> {
    map e | e in headers :: Account(headers[e].kind, headers[e].referenceCount)
  }

  function Actives(threads: map<Tid, Thread>): map<Tid, set<Id>> {
    map t | t in threads :: Active(threads[t])
  }

  function Pendings(threads: map<Tid, Thread>): map<Tid, Pending> {
    map t | t in threads :: threads[t].pending
  }

  function View(w: World): Book {
    Book(Accounts(w.rt.headers), Actives(w.threads), Pendings(w.threads), w.ptrs, w.births, w.destroyed)
  }

  ghost predicate Inv(w: World) {
    && w.threads.Keys == w.rt.globals.Keys
    && (forall t :: t in w.threads ==> ThreadOk(w.rt, t, w.threads[t]))
    && Balanced(View(w))
  }
}
