// How check_type_signature of src/exception.cc matches: the handlers' views of an exception are those
// that __do_catch of src/dynamic_cast.cc gives, and so is the pointer that a handler ends up with.
module Matching {
  import opened Lists
  import opened Actions
  import Casts
  import Qualifiers
  import TwoPhase

  // An exception of this type. obj is where its object is; for an exception that is a pointer, what
  // it points to. types says what the entries of the type tables stand for.
  function ThrownOf(g: Casts.Graph, mem: Casts.Memory, t: Qualifiers.Type, obj: int, types: map<TypeId, Qualifiers.Type>): Thrown
    requires Casts.Acyclic(g)
  {
    Thrown(obj, map ty | ty in types && Qualifiers.DoCatch(g, mem, types[ty], t, obj, true).Some? ::
      Qualifiers.DoCatch(g, mem, types[ty], t, obj, true).value)
  }

  // The raise lands at a catch clause for ty, and no frame crossed stores a pointer again.
  ghost predicate LandsQuietly(heap: TwoPhase.Heap, e: TwoPhase.Episode, inFlight: set<TwoPhase.Id>, ty: TypeId) {
    && e.id !in inFlight && TwoPhase.ApartFrames(e.frames, inFlight + {e.id}) && TwoPhase.Idle(heap, inFlight)
    && TwoPhase.Raise(heap, e).done
    && (forall place :: place in TwoPhase.Before(e.thrown, e.frames) ==> !TwoPhase.Restores(e.thrown, place))
    && var d := TwoPhase.Deciding(e.thrown, e.frames, 0);
      d.Some? && TwoPhase.Catches(e.thrown, d.value.1) && TwoPhase.Clause(e.thrown, d.value.1) == Some(ty)
  }

  // The pointer that __cxa_begin_catch returns is the one that __do_catch gives the clause. A catch-all,
  // entry zero, gets the object itself.
  lemma CaughtView(heap: TwoPhase.Heap, e: TwoPhase.Episode, inFlight: set<TwoPhase.Id>, ty: TypeId,
      g: Casts.Graph, mem: Casts.Memory, t: Qualifiers.Type, obj: int, types: map<TypeId, Qualifiers.Type>)
    requires Casts.Acyclic(g) && e.thrown == ThrownOf(g, mem, t, obj, types) && LandsQuietly(heap, e, inFlight, ty)
    ensures var pointer := TwoPhase.CacheOf(TwoPhase.Raise(heap, e).heap, e.id).adjustedPtr;
      if ty == 0 then pointer == obj
      else ty in types && Qualifiers.DoCatch(g, mem, types[ty], t, obj, true) == Some(pointer)
  {
    TwoPhase.CaughtPointer(heap, e, inFlight, ty);
  }

  // For an exception of class d caught as base class c, or for a pointer to d caught as a pointer to c,
  // it is the address of the base, whichever path leads there. A null pointer moves like any other:
  // Qualifiers.NullCatch says when it stays null.
  lemma CaughtBase(heap: TwoPhase.Heap, e: TwoPhase.Episode, inFlight: set<TwoPhase.Id>, ty: TypeId,
      g: Casts.Graph, mem: Casts.Memory, t: Qualifiers.Type, obj: int, types: map<TypeId, Qualifiers.Type>,
      d: Casts.ClassId, c: Casts.ClassId, path: seq<nat>)
    requires Casts.Acyclic(g) && e.thrown == ThrownOf(g, mem, t, obj, types) && ty in types && ty != 0
    requires LandsQuietly(heap, e, inFlight, ty) && d < |g|
    requires (t == Qualifiers.OfClass(d) && types[ty] == Qualifiers.OfClass(c))
      || (t.Pointer? && t.pointee == Qualifiers.OfClass(d) && types[ty].Pointer? && types[ty].pointee == Qualifiers.OfClass(c))
    requires Casts.Located(g, mem, d, obj) && Casts.Unique(g, d, c) && Casts.Leads(g, d, path, c)
    ensures TwoPhase.CacheOf(TwoPhase.Raise(heap, e).heap, e.id).adjustedPtr == Casts.Address(g, mem, d, obj, path)
  {
    CaughtView(heap, e, inFlight, ty, g, mem, t, obj, types);
    Casts.UpcastMeaning(g, mem, d, c, obj);
    if t.OfClass? {
      Qualifiers.ClassCatch(g, mem, c, t, obj);
      Casts.UpcastIsFrom(g, mem, d, c, obj);
    } else {
      Qualifiers.ClassPointerCatch(g, mem, types[ty].flags, c, t, obj);
    }
  }
}
