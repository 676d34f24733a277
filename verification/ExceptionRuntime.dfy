// The exception ABI calls of src/exception.cc as methods that update the headers and the
// per-thread globals in place.
module ExceptionRuntime {
  import opened Lists
  import opened Abi

  // A header as the allocator hands it out: all zero.
  const ZEROED := Header(Primary(0), 0, 0, None)

  class Calls {
    var headers: map<Id, Header>
    var globals: map<Tid, Globals>
    var destroyed: seq<Id>

    function State(): Runtime
      reads this
    {
      Runtime(headers, globals)
    }

    constructor ()
      ensures State() == Runtime(map[], map[]) && destroyed == []
    {
      headers, globals, destroyed := map[], map[], [];
    }

    // thread_info: the globals of a thread are created on first use.
    method ThreadInfo(t: Tid)
      modifies this`globals
      ensures globals == if t in old(globals) then old(globals) else old(globals)[t := Globals(None, 0)]
    {
      if t !in globals {
        globals := globals[t := Globals(None, 0)];
      }
    }

    // __cxa_throw, up to the call of the unwinder. Nothing here sets handlerCount or nextException.
    method Throw(t: Tid, e: Id, ty: nat)
      requires t in globals && e in headers && headers[e] == ZEROED
      modifies this`headers, this`globals
      ensures State() == Abi.Throw(old(State()), t, e, ty)
    {
      headers := headers[e := headers[e].(referenceCount := 0, kind := Primary(ty))];
      headers := headers[e := headers[e].(referenceCount := 1)];
      globals := globals[t := globals[t].(uncaught := globals[t].uncaught + 1)];
    }

    // __cxa_increment_exception_refcount on a pointer that is not null.
    method IncrementRefcount(p: Id)
      requires p in headers
      modifies this`headers
      ensures headers == if old(headers)[p].kind.Dependent? then old(headers)
        else old(headers)[p := AddReference(old(headers)[p], 1)]
    {
      if headers[p].kind.Dependent? {
        return;
      }
      headers := headers[p := headers[p].(referenceCount := headers[p].referenceCount + 1)];
    }

    // __cxa_rethrow_primary_exception on a pointer that is not null, with d freshly allocated.
    method RethrowPrimary(t: Tid, p: Id, d: Id)
      requires t in globals && p in headers && headers[p].kind.Primary? && d in headers && d != p && headers[d] == ZEROED
      modifies this`headers, this`globals
      ensures State() == Abi.ThrowDependent(old(State()), t, d, p)
    {
      headers := headers[d := headers[d].(kind := Dependent(p))];
      IncrementRefcount(p);
      globals := globals[t := globals[t].(uncaught := globals[t].uncaught + 1)];
    }

    // __cxa_begin_catch
    method BeginCatch(t: Tid, e: Id)
      requires Knows(State(), t, e)
      modifies this`headers, this`globals
      ensures State() == Abi.BeginCatch(old(State()), t, e)
    {
      globals := globals[t := globals[t].(uncaught := globals[t].uncaught - 1)];
      if headers[e].handlerCount == 0 {
        headers := headers[e := headers[e].(next := globals[t].caught)];
        globals := globals[t := globals[t].(caught := Some(e))];
      }
      if headers[e].handlerCount < 0 {
        headers := headers[e := headers[e].(handlerCount := -headers[e].handlerCount + 1)];
      } else {
        headers := headers[e := headers[e].(handlerCount := headers[e].handlerCount + 1)];
      }
    }

    // releaseException, with __cxa_free_dependent_exception and __cxa_free_exception
    method ReleaseException(e: Id)
      requires Typed(State(), e)
      modifies this`headers, this`destroyed
      ensures headers == Release(old(State()), e).0.headers
      ensures destroyed == old(destroyed) + (if Release(old(State()), e).1 then [Real(old(headers), e)] else [])
      decreases headers[e].kind.Dependent?
    {
      if headers[e].kind.Dependent? {
        ReleaseException(headers[e].kind.primary);
        headers := headers - {e};
        return;
      }
      headers := headers[e := headers[e].(referenceCount := headers[e].referenceCount - 1)];
      if headers[e].referenceCount == 0 {
        destroyed := destroyed + [e];
        headers := headers - {e};
      }
    }

    // __cxa_end_catch; not ok stands for the failed assertion.
    method EndCatch(t: Tid) returns (ok: bool)
      requires t in globals
      requires globals[t].caught.Some? ==> Typed(State(), globals[t].caught.value)
      modifies this
      ensures ok <==> old(globals)[t].caught.Some?
      ensures !ok ==> State() == old(State()) && destroyed == old(destroyed)
      ensures ok ==>
        var (rt, release) := Abi.EndCatch(old(State()), t);
        var e := Current(old(State()), t);
        && Typed(rt, e)
        && State() == (if release then Release(rt, e).0 else rt)
        && destroyed == old(destroyed) + (if release && Release(rt, e).1 then [Real(old(headers), e)] else [])
    {
      if globals[t].caught.None? {
        return false;
      }
      var e := globals[t].caught.value;
      var deleteException := true;
      if headers[e].handlerCount < 0 {
        headers := headers[e := headers[e].(handlerCount := headers[e].handlerCount + 1)];
        deleteException := false;
      } else {
        headers := headers[e := headers[e].(handlerCount := headers[e].handlerCount - 1)];
      }
      if headers[e].handlerCount == 0 {
        globals := globals[t := globals[t].(caught := headers[e].next)];
        if deleteException {
          ReleaseException(e);
        }
      }
      return true;
    }

    // __cxa_rethrow, up to the call of the unwinder; not ok stands for terminate or the failed
    // assertion.
    method Rethrow(t: Tid) returns (ok: bool)
      requires t in globals
      requires globals[t].caught.Some? ==> globals[t].caught.value in headers
      modifies this`headers, this`globals
      ensures ok <==> MayRethrow(old(State()), t)
      ensures State() == if ok then Abi.Rethrow(old(State()), t) else old(State())
    {
      if globals[t].caught.None? {
        return false;
      }
      var e := globals[t].caught.value;
      if headers[e].handlerCount <= 0 {
        return false;
      }
      globals := globals[t := globals[t].(uncaught := globals[t].uncaught + 1)];
      headers := headers[e := headers[e].(handlerCount := -headers[e].handlerCount)];
      return true;
    }

    // __cxa_current_primary_exception
    method CurrentPrimary(t: Tid) returns (p: Option<Id>)
      requires t in globals
      requires globals[t].caught.Some? ==> Typed(State(), globals[t].caught.value)
      modifies this`headers
      ensures p == if old(globals)[t].caught.None? then None else Some(Real(old(headers), Current(old(State()), t)))
      ensures headers == if p.None? then old(headers) else old(headers)[p.value := AddReference(old(headers)[p.value], 1)]
    {
      if globals[t].caught.None? {
        return None;
      }
      var e := globals[t].caught.value;
      if headers[e].kind.Dependent? {
        e := headers[e].kind.primary;
      }
      headers := headers[e := headers[e].(referenceCount := headers[e].referenceCount + 1)];
      return Some(e);
    }
  }
}
