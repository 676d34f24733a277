// The state that the exception ABI calls of src/exception.cc share, and what each call does to it.
//
// A header is a __cxa_exception or a __cxa_dependent_exception. The list of caught exceptions of
// a thread is a linked list through `next`. Pointers are identifiers; None is the null pointer.
module Abi {
  import opened Lists

  type Id = nat
  type Tid = nat

  // The type matched against handlers is always that of the primary exception.
  datatype Kind = Primary(ty: nat) | Dependent(primary: Id)

  datatype Header = Header(
    kind: Kind,
    handlerCount: int,
    referenceCount: int,
    next: Option<Id>)

  // The per-thread __cxa_eh_globals.
  datatype Globals = Globals(caught: Option<Id>, uncaught: int)

  datatype Runtime = Runtime(headers: map<Id, Header>, globals: map<Tid, Globals>)

  // The primary exception that a header stands for.
  function Real(headers: map<Id, Header>, e: Id): Id
    requires e in headers
  {
    match headers[e].kind
    case Primary(_) => e
    case Dependent(p) => p
  }

  predicate Knows(rt: Runtime, t: Tid, e: Id) {
    t in rt.globals && e in rt.headers
  }

  function SetHeader(rt: Runtime, e: Id, h: Header): Runtime {
    rt.(headers := rt.headers[e := h])
  }

  // __cxa_throw up to the point where unwinding starts: a zero-filled header that gets its
  // first reference, and one more exception in flight.
  function Throw(rt: Runtime, t: Tid, e: Id, ty: nat): Runtime
    requires t in rt.globals
  {
    rt.(headers := rt.headers[e := Header(Primary(ty), 0, 1, None)],
        globals := rt.globals[t := rt.globals[t].(uncaught := rt.globals[t].uncaught + 1)])
  }

  // __cxa_rethrow_primary_exception up to the point where unwinding starts.
  function ThrowDependent(rt: Runtime, t: Tid, d: Id, p: Id): Runtime
    requires Knows(rt, t, p)
  {
    var g := rt.globals[t];
    Runtime(
      rt.headers[p := AddReference(rt.headers[p], 1)][d := Header(Dependent(p), 0, 0, None)],
      rt.globals[t := g.(uncaught := g.uncaught + 1)])
  }

  function AddReference(h: Header, delta: int): Header {
    h.(referenceCount := h.referenceCount + delta)
  }

  // __cxa_begin_catch for a native exception.
  function BeginCatch(rt: Runtime, t: Tid, e: Id): Runtime
    requires Knows(rt, t, e)
  {
    var g := rt.globals[t];
    var h := rt.headers[e];
    var linked := if h.handlerCount == 0 then h.(next := g.caught) else h;
    var caught := if h.handlerCount == 0 then Some(e) else g.caught;
    var count := if h.handlerCount < 0 then -h.handlerCount + 1 else h.handlerCount + 1;
    Runtime(rt.headers[e := linked.(handlerCount := count)],
            rt.globals[t := Globals(caught, g.uncaught - 1)])
  }

  predicate HasCurrent(rt: Runtime, t: Tid) {
    t in rt.globals && rt.globals[t].caught.Some? && rt.globals[t].caught.value in rt.headers
  }

  function Current(rt: Runtime, t: Tid): Id
    requires HasCurrent(rt, t)
  {
    rt.globals[t].caught.value
  }

  // __cxa_end_catch up to the call of releaseException: the new state, and whether the
  // exception that was current has to be released.
  function EndCatch(rt: Runtime, t: Tid): (Runtime, bool)
    requires HasCurrent(rt, t)
  {
    var e := Current(rt, t);
    var h := rt.headers[e];
    var rethrown := h.handlerCount < 0;
    var h' := h.(handlerCount := if rethrown then h.handlerCount + 1 else h.handlerCount - 1);
    var g := rt.globals[t];
    var g' := if h'.handlerCount == 0 then g.(caught := h.next) else g;
    (Runtime(rt.headers[e := h'], rt.globals[t := g']), h'.handlerCount == 0 && !rethrown)
  }

  // The assertion in __cxa_rethrow, together with the null check before it.
  predicate MayRethrow(rt: Runtime, t: Tid)
    requires t in rt.globals
  {
    match rt.globals[t].caught
    case None => false
    case Some(e) => e in rt.headers && rt.headers[e].handlerCount > 0
  }

  // __cxa_rethrow up to the point where unwinding starts.
  function Rethrow(rt: Runtime, t: Tid): Runtime
    requires t in rt.globals && MayRethrow(rt, t)
  {
    var e := rt.globals[t].caught.value;
    var h := rt.headers[e];
    Runtime(rt.headers[e := h.(handlerCount := -h.handlerCount)],
            rt.globals[t := rt.globals[t].(uncaught := rt.globals[t].uncaught + 1)])
  }

  predicate Typed(rt: Runtime, e: Id) {
    e in rt.headers && Real(rt.headers, e) in rt.headers && rt.headers[Real(rt.headers, e)].kind.Primary?
  }

  // releaseException without interference: the new state, and whether the primary exception
  // was destroyed.
  function Release(rt: Runtime, e: Id): (Runtime, bool)
    requires Typed(rt, e)
  {
    var p := Real(rt.headers, e);
    var h := AddReference(rt.headers[p], -1);
    var headers := if h.referenceCount == 0 then rt.headers - {p} else rt.headers[p := h];
    (rt.(headers := if p == e then headers else headers - {e}), h.referenceCount == 0)
  }
}
