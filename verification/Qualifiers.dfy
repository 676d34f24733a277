// Catching pointers: __do_catch of src/dynamic_cast.cc against the qualification conversions of
// section 4.4 of the C++11 standard.
module Qualifiers {
  import opened Lists
  import opened Casts

  // The flags of a pointer type say how its pointee is qualified.
  datatype Flag = Const | Volatile | Restrict | Incomplete | IncompleteClass

  // Types; each has one type_info.
  datatype Type =
    | Basic(id: nat)
    | Function(id: nat)
    | Void
    | OfClass(cls: ClassId)
    | Pointer(flags: set<Flag>, pointee: Type)
    | Member(flags: set<Flag>, pointee: Type, context: ClassId)

  // __do_catch of handler type h for thrown type t. The result is the pointer to the object, if
  // the handler catches; outer says that all pointers passed so far are to const.
  function DoCatch(g: Graph, mem: Memory, h: Type, t: Type, obj: int, outer: bool): Option<int>
    requires Acyclic(g)
    decreases h
  {
    if h == t then Some(obj)
    else
      match h
      case Basic(_) => None
      case Function(_) => None
      case Void => None
      case OfClass(target) => if t.OfClass? && t.cls < |g| then Upcast(g, mem, t.cls, target, obj) else None
      case Pointer(flags, pointee) => CatchPointer(g, mem, h, t, obj, outer)
      case Member(flags, pointee, _) => CatchPointer(g, mem, h, t, obj, outer)
  }

  // The part shared by pointers and pointers to members.
  function CatchPointer(g: Graph, mem: Memory, h: Type, t: Type, obj: int, outer: bool): Option<int>
    requires Acyclic(g) && (h.Pointer? || h.Member?)
    decreases h, 0
  {
    if !t.Pointer? || !outer then None
    else if !(t.flags <= h.flags) then None
    else if h.pointee == Void then Some(obj)
    else DoCatch(g, mem, h.pointee, t.pointee, obj, Const in h.flags)
  }

  // ----- Qualification conversions -----

  // The qualifiers of a pointer type, from the outermost pointee in, and what is at the end.
  function Levels(t: Type): seq<set<Flag>> {
    if t.Pointer? then [t.flags] + Levels(t.pointee) else []
  }

  function Bottom(t: Type): Type {
    if t.Pointer? then Bottom(t.pointee) else t
  }

  // Each level of the handler has the qualifiers of the thrown type, and where they differ at some
  // level, all levels above it are const. The marks of incomplete types, which the standard does
  // not know, are compared like qualifiers, as the code does.
  predicate Requalifies(from: seq<set<Flag>>, to: seq<set<Flag>>) {
    && |from| == |to|
    && (forall j :: 0 <= j < |to| ==> from[j] <= to[j])
    && (forall j, k :: 0 <= k < j < |to| && from[j] != to[j] ==> Const in to[k])
  }

  predicate Converts(t: Type, h: Type) {
    Bottom(t) == Bottom(h) && Requalifies(Levels(t), Levels(h))
  }

  lemma {:induction false} SameType(h: Type, t: Type)
    ensures h == t <==> Levels(h) == Levels(t) && Bottom(h) == Bottom(t)
  {
    if h.Pointer? && t.Pointer? {
      SameType(h.pointee, t.pointee);
      assert Levels(h)[0] == h.flags && Levels(h)[1..] == Levels(h.pointee);
      assert Levels(t)[0] == t.flags && Levels(t)[1..] == Levels(t.pointee);
    } else {
      assert h.Pointer? ==> Levels(h) != [];
      assert t.Pointer? ==> Levels(t) != [];
    }
  }

  lemma LevelsOf(p: Type)
    requires p.Pointer?
    ensures Levels(p)[0] == p.flags && Levels(p)[1..] == Levels(p.pointee) && Bottom(p) == Bottom(p.pointee)
    ensures |Levels(p)| == 1 + |Levels(p.pointee)|
  {
  }

  // Requalifying level by level.
  lemma RequalifiesApart(a: set<Flag>, from: seq<set<Flag>>, b: set<Flag>, to: seq<set<Flag>>)
    requires Requalifies([a] + from, [b] + to)
    ensures a <= b && Requalifies(from, to) && (from == to || Const in b)
  {
    var from', to' := [a] + from, [b] + to;
    assert from'[0] == a && to'[0] == b;
    assert forall j :: 0 <= j < |to| ==> from[j] == from'[j + 1] && to[j] == to'[j + 1];
    if from != to {
      var j :| 0 <= j < |to| && from[j] != to[j];
      assert from'[j + 1] != to'[j + 1];
    }
  }

  lemma RequalifiesJoin(a: set<Flag>, from: seq<set<Flag>>, b: set<Flag>, to: seq<set<Flag>>)
    requires a <= b && Requalifies(from, to) && (from == to || Const in b)
    ensures Requalifies([a] + from, [b] + to)
  {
    var from', to' := [a] + from, [b] + to;
    assert forall j :: 0 < j < |to'| ==> from'[j] == from[j - 1] && to'[j] == to[j - 1];
    forall j, k | 0 <= k < j < |to'| && from'[j] != to'[j] ensures Const in to'[k] {
      assert from[j - 1] != to[j - 1];
      if k > 0 {
        assert Const in to[k - 1];
      }
    }
  }

  lemma RequalifiesInner(h: Type, t: Type)
    requires h.Pointer? && t.Pointer?
    ensures Requalifies(Levels(t), Levels(h)) <==>
      && t.flags <= h.flags
      && Requalifies(Levels(t.pointee), Levels(h.pointee))
      && (Levels(t.pointee) == Levels(h.pointee) || Const in h.flags)
  {
    if Requalifies(Levels(t), Levels(h)) {
      RequalifiesApart(t.flags, Levels(t.pointee), h.flags, Levels(h.pointee));
    } else if t.flags <= h.flags && Requalifies(Levels(t.pointee), Levels(h.pointee))
        && (Levels(t.pointee) == Levels(h.pointee) || Const in h.flags) {
      RequalifiesJoin(t.flags, Levels(t.pointee), h.flags, Levels(h.pointee));
    }
  }

  lemma ConvertsInner(h: Type, t: Type)
    requires h.Pointer? && t.Pointer?
    ensures Converts(t, h) <==>
      t.flags <= h.flags && (h.pointee == t.pointee || (Const in h.flags && Converts(t.pointee, h.pointee)))
  {
    RequalifiesInner(h, t);
    SameType(h.pointee, t.pointee);
    if h.pointee == t.pointee {
      assert Requalifies(Levels(t.pointee), Levels(h.pointee));
    }
  }

  // The levels of the handler cover those of the thrown type as far as they go, and all but the
  // last are const.
  predicate Covers(from: seq<set<Flag>>, to: seq<set<Flag>>) {
    && |to| <= |from|
    && (forall j :: 0 <= j < |to| ==> from[j] <= to[j])
    && (forall k :: 0 <= k < |to| - 1 ==> Const in to[k])
  }

  lemma CoversApart(a: set<Flag>, from: seq<set<Flag>>, b: set<Flag>, to: seq<set<Flag>>)
    requires Covers([a] + from, [b] + to)
    ensures a <= b && Covers(from, to) && (to == [] || Const in b)
  {
    var from', to' := [a] + from, [b] + to;
    assert from'[0] == a && to'[0] == b;
    assert forall j :: 0 <= j < |from| ==> from[j] == from'[j + 1];
    assert forall j :: 0 <= j < |to| ==> to[j] == to'[j + 1];
  }

  lemma CoversJoin(a: set<Flag>, from: seq<set<Flag>>, b: set<Flag>, to: seq<set<Flag>>)
    requires a <= b && Covers(from, to) && (to == [] || Const in b)
    ensures Covers([a] + from, [b] + to)
  {
    var from', to' := [a] + from, [b] + to;
    assert forall j :: 0 < j < |from'| ==> from'[j] == from[j - 1];
    assert forall j :: 0 < j < |to'| ==> to'[j] == to[j - 1];
  }

  lemma CoversInner(h: Type, t: Type)
    requires h.Pointer? && t.Pointer?
    ensures Covers(Levels(t), Levels(h)) <==>
      t.flags <= h.flags && Covers(Levels(t.pointee), Levels(h.pointee)) && (h.pointee.Pointer? ==> Const in h.flags)
  {
    if Covers(Levels(t), Levels(h)) {
      CoversApart(t.flags, Levels(t.pointee), h.flags, Levels(h.pointee));
    } else if t.flags <= h.flags && Covers(Levels(t.pointee), Levels(h.pointee)) && (h.pointee.Pointer? ==> Const in h.flags) {
      CoversJoin(t.flags, Levels(t.pointee), h.flags, Levels(h.pointee));
    }
  }

  // What a handler accepts: the qualification conversions; at the end of as many levels as the
  // handler has, anything for void and a class that can be upcast for a class.
  function Rule(g: Graph, mem: Memory, h: Type, t: Type, obj: int): Option<int>
    requires Acyclic(g)
  {
    if Converts(t, h) then Some(obj)
    else if !Covers(Levels(t), Levels(h)) then None
    else
      match Bottom(h)
      case Void => if h.Pointer? then Some(obj) else None
      case OfClass(target) =>
        var from := Bottom(t);
        if |Levels(t)| == |Levels(h)| && from.OfClass? && from.cls < |g| then Upcast(g, mem, from.cls, target, obj) else None
      case _ => None
  }

  // Somewhere the handler has a pointer to member where the thrown type has a pointer.
  predicate Mistaken(h: Type, t: Type)
    decreases h
  {
    t.Pointer? && (h.Member? || (h.Pointer? && Mistaken(h.pointee, t.pointee)))
  }

  lemma {:induction false} CatchIsRule(g: Graph, mem: Memory, h: Type, t: Type, obj: int, outer: bool)
    requires Acyclic(g) && !Mistaken(h, t)
    ensures DoCatch(g, mem, h, t, obj, outer) ==
      if h == t then Some(obj) else if h.Pointer? && !outer then None else Rule(g, mem, h, t, obj)
    decreases h
  {
    SameType(h, t);
    if h == t {
    } else if h.Pointer? && t.Pointer? && outer {
      LevelsOf(h);
      LevelsOf(t);
      ConvertsInner(h, t);
      CoversInner(h, t);
      CatchIsRule(g, mem, h.pointee, t.pointee, obj, Const in h.flags);
    }
  }

  // The handler with its pointers to members taken for pointers wherever the thrown type has a
  // pointer.
  function Skin(h: Type, t: Type): Type
    decreases h
  {
    if t.Pointer? && (h.Pointer? || h.Member?) then Pointer(h.flags, Skin(h.pointee, t.pointee)) else h
  }

  // Above the deepest such place all levels of the handler are const.
  predicate ConstAbove(h: Type, t: Type)
    decreases h
  {
    (t.Pointer? && (h.Pointer? || h.Member?) && Mistaken(h.pointee, t.pointee)) ==>
      Const in h.flags && ConstAbove(h.pointee, t.pointee)
  }

  lemma {:induction false} SkinPlain(h: Type, t: Type)
    ensures !Mistaken(h, t) ==> Skin(h, t) == h
    ensures !Mistaken(Skin(h, t), t)
    ensures Mistaken(h, t) ==> h != t
    decreases h
  {
    if t.Pointer? && (h.Pointer? || h.Member?) {
      SkinPlain(h.pointee, t.pointee);
    }
  }

  lemma {:induction false} SkinCatches(g: Graph, mem: Memory, h: Type, t: Type, obj: int, outer: bool)
    requires Acyclic(g)
    ensures DoCatch(g, mem, h, t, obj, outer) ==
      if Mistaken(h, t) && !(outer && ConstAbove(h, t)) then None else DoCatch(g, mem, Skin(h, t), t, obj, outer)
    decreases h
  {
    SkinPlain(h, t);
    if Mistaken(h, t) {
      SkinPlain(h.pointee, t.pointee);
      SkinCatches(g, mem, h.pointee, t.pointee, obj, Const in h.flags);
      var inner, skin := Skin(h.pointee, t.pointee), Skin(h, t);
      assert DoCatch(g, mem, h, t, obj, outer) == CatchPointer(g, mem, h, t, obj, outer);
      assert inner == Void <==> h.pointee == Void;
      if skin == t {
        assert DoCatch(g, mem, inner, t.pointee, obj, Const in h.flags) == Some(obj);
      } else {
        assert DoCatch(g, mem, skin, t, obj, outer) == CatchPointer(g, mem, skin, t, obj, outer);
      }
    }
  }

  // Exactly what any handler accepts, and with which pointer.
  lemma CatchExactly(g: Graph, mem: Memory, h: Type, t: Type, obj: int)
    requires Acyclic(g)
    ensures DoCatch(g, mem, h, t, obj, true) ==
      if Mistaken(h, t) && !ConstAbove(h, t) then None else Rule(g, mem, Skin(h, t), t, obj)
  {
    SkinCatches(g, mem, h, t, obj, true);
    SkinPlain(h, t);
    CatchIsRule(g, mem, Skin(h, t), t, obj, true);
    if Skin(h, t) == t {
      ConvertsSelf(t);
    }
  }

  lemma ConvertsSelf(t: Type)
    ensures Converts(t, t)
  {
  }

  lemma {:induction false} NotMistaken(h: Type, t: Type)
    requires !Bottom(h).Member?
    ensures !Mistaken(h, t)
    decreases h
  {
    if h.Pointer? && t.Pointer? {
      NotMistaken(h.pointee, t.pointee);
    }
  }

  // For pointers of any depth, and whatever is thrown, a handler whose innermost pointee is neither
  // a class nor void catches exactly the qualification conversions, and leaves the pointer alone.
  lemma PointerCatch(g: Graph, mem: Memory, h: Type, t: Type, obj: int)
    requires Acyclic(g) && (Bottom(h).Basic? || Bottom(h).Function?)
    ensures DoCatch(g, mem, h, t, obj, true) == if Converts(t, h) then Some(obj) else None
  {
    NotMistaken(h, t);
    CatchIsRule(g, mem, h, t, obj, true);
    SameType(h, t);
  }

  // A handler for a pointer to void catches every pointer that is not more qualified.
  lemma VoidPointerCatch(g: Graph, mem: Memory, flags: set<Flag>, t: Type, obj: int)
    requires Acyclic(g)
    ensures DoCatch(g, mem, Pointer(flags, Void), t, obj, true) == if t.Pointer? && t.flags <= flags then Some(obj) else None
  {
  }

  // A handler for a pointer to a base class catches a pointer to a derived class that is not more
  // qualified, and gets the upcast pointer.
  lemma ClassPointerCatch(g: Graph, mem: Memory, flags: set<Flag>, target: ClassId, t: Type, obj: int)
    requires Acyclic(g) && t.Pointer? && t.pointee.OfClass? && t.pointee.cls < |g|
    ensures DoCatch(g, mem, Pointer(flags, OfClass(target)), t, obj, true) ==
      if t.flags <= flags then Upcast(g, mem, t.pointee.cls, target, obj) else None
  {
    UpcastIsFrom(g, mem, t.pointee.cls, target, obj);
    assert DoCatch(g, mem, OfClass(target), t.pointee, obj, Const in flags) == Upcast(g, mem, t.pointee.cls, target, obj);
  }

  // ----- What the standard lets a handler catch -----

  // Only qualifiers, no marks of incomplete types.
  predicate Complete(t: Type) {
    match t
    case Pointer(flags, pointee) => Incomplete !in flags && IncompleteClass !in flags && Complete(pointee)
    case Member(flags, pointee, _) => Incomplete !in flags && IncompleteClass !in flags && Complete(pointee)
    case _ => true
  }

  // Multi-level types may mix pointers and pointers to members: at each level, the class of the latter
  // and the qualifiers, and what is at the end.
  function Contexts(t: Type): seq<Option<ClassId>> {
    match t
    case Pointer(_, pointee) => [None] + Contexts(pointee)
    case Member(_, pointee, context) => [Some(context)] + Contexts(pointee)
    case _ => []
  }

  function Quals(t: Type): seq<set<Flag>> {
    match t
    case Pointer(flags, pointee) => [flags] + Quals(pointee)
    case Member(flags, pointee, _) => [flags] + Quals(pointee)
    case _ => []
  }

  function End(t: Type): Type {
    match t
    case Pointer(_, pointee) => End(pointee)
    case Member(_, pointee, _) => End(pointee)
    case _ => t
  }

  // A qualification conversion (section 4.4).
  predicate MixedConverts(t: Type, h: Type) {
    End(t) == End(h) && Contexts(t) == Contexts(h) && Requalifies(Quals(t), Quals(h))
  }

  // A pointer conversion (section 4.10), with any qualifiers added: from a pointer to an object to one
  // to void, or to an unambiguous public base.
  ghost predicate PointerConverts(g: Graph, t: Type, h: Type) {
    && t.Pointer? && h.Pointer? && t.flags <= h.flags
    && ((h.pointee == Void && !t.pointee.Function?)
        || (h.pointee.OfClass? && t.pointee.OfClass? && t.pointee.cls < |g| && ProperBase(g, t.pointee.cls, h.pointee.cls)))
  }

  // Section 15.3: the same type, an unambiguous public base, or for a pointer handler a pointer that
  // is converted by a pointer conversion, a qualification conversion, or both.
  ghost predicate Standard(g: Graph, t: Type, h: Type) {
    || t == h
    || (h.OfClass? && t.OfClass? && t.cls < |g| && ProperBase(g, t.cls, h.cls))
    || (h.Pointer? && t.Pointer? && (MixedConverts(t, h) || PointerConverts(g, t, h)))
  }

  // The handler catches exactly what the standard says.
  ghost predicate Agrees(g: Graph, h: Type)
    requires Acyclic(g)
  {
    forall mem: Memory, t: Type, obj: int :: Complete(t) ==> (DoCatch(g, mem, h, t, obj, true).Some? <==> Standard(g, t, h))
  }

  // Every class that has this class as a base has it as an unambiguous public one.
  ghost predicate OnlyProper(g: Graph, cls: ClassId) {
    forall d: ClassId :: d < |g| && Reaches(g, d, cls) ==> ProperBase(g, d, cls)
  }

  // Some other class has this class as a base.
  ghost predicate HasDerived(g: Graph, cls: ClassId) {
    exists d: ClassId :: d < |g| && d != cls && Reaches(g, d, cls)
  }

  // All levels of the handler but the last are const.
  predicate ConstOuter(h: Type) {
    h.Pointer? && h.pointee.Pointer? ==> Const in h.flags && ConstOuter(h.pointee)
  }

  // All levels down to a pointer to member are const.
  predicate ConstToMember(h: Type) {
    h.Pointer? ==> Const in h.flags && ConstToMember(h.pointee)
  }

  // A condition on the handler and the classes alone. A handler for a class, or for a pointer to it,
  // needs that no class has it as an ambiguous or inaccessible base; a handler for a pointer to void
  // catches pointers to functions and never is; a handler for a pointer to pointer needs a level that is not const, or no void and no base class at its end; and one for a
  // pointer that leads to a pointer to member needs a level on the way that is not const.
  ghost predicate Sound(g: Graph, h: Type) {
    match h
    case Basic(_) => true
    case Function(_) => true
    case Void => true
    case OfClass(cls) => OnlyProper(g, cls)
    case Member(_, _, _) => false
    case Pointer(_, pointee) =>
      if pointee == Void then false
      else if pointee.OfClass? then OnlyProper(g, pointee.cls)
      else if Bottom(h).Member? then !ConstToMember(h)
      else
        pointee.Pointer? && ConstOuter(h) ==> Bottom(h) != Void && (Bottom(h).OfClass? ==> !HasDerived(g, Bottom(h).cls))
  }

  // A handler for a pointer to member catches the same type, and every pointer that a handler for a
  // plain pointer with its qualifiers and pointee catches; the standard gives it the former only.
  lemma MemberCatch(g: Graph, mem: Memory, h: Type, t: Type, obj: int)
    requires Acyclic(g) && h.Member?
    ensures DoCatch(g, mem, h, t, obj, true) ==
      if t == h then Some(obj) else if t.Pointer? then DoCatch(g, mem, Pointer(h.flags, h.pointee), t, obj, true) else None
    ensures Standard(g, t, h) <==> t == h
  {
    var plain := Pointer(h.flags, h.pointee);
    if t.Pointer? {
      assert DoCatch(g, mem, h, t, obj, true) == CatchPointer(g, mem, h, t, obj, true);
      if t == plain {
        assert DoCatch(g, mem, h.pointee, h.pointee, obj, Const in h.flags) == Some(obj);
      } else {
        assert DoCatch(g, mem, plain, t, obj, true) == CatchPointer(g, mem, plain, t, obj, true);
      }
    }
  }

  // ----- Where the code and the standard agree -----

  lemma {:induction false} MixedSame(h: Type, t: Type)
    ensures h == t <==> Contexts(h) == Contexts(t) && Quals(h) == Quals(t) && End(h) == End(t)
  {
    if (h.Pointer? || h.Member?) && (t.Pointer? || t.Member?) {
      MixedSame(h.pointee, t.pointee);
      assert Contexts(h)[1..] == Contexts(h.pointee) && Contexts(t)[1..] == Contexts(t.pointee);
      assert Quals(h)[0] == h.flags && Quals(t)[0] == t.flags;
      assert Quals(h)[1..] == Quals(h.pointee) && Quals(t)[1..] == Quals(t.pointee);
      assert Contexts(h)[0] == (if h.Pointer? then None else Some(h.context));
      assert Contexts(t)[0] == (if t.Pointer? then None else Some(t.context));
    } else {
      assert h.Pointer? || h.Member? ==> Contexts(h) != [];
      assert t.Pointer? || t.Member? ==> Contexts(t) != [];
    }
  }

  lemma MixedInner(h: Type, t: Type)
    requires h.Pointer? && t.Pointer?
    ensures MixedConverts(t, h) <==>
      t.flags <= h.flags && (h.pointee == t.pointee || (Const in h.flags && MixedConverts(t.pointee, h.pointee)))
  {
    assert Contexts(h)[1..] == Contexts(h.pointee) && Contexts(t)[1..] == Contexts(t.pointee);
    MixedSame(h.pointee, t.pointee);
    if h.pointee == t.pointee {
      assert Requalifies(Quals(t.pointee), Quals(h.pointee));
    }
    if Requalifies(Quals(t), Quals(h)) {
      RequalifiesApart(t.flags, Quals(t.pointee), h.flags, Quals(h.pointee));
    } else if t.flags <= h.flags && Requalifies(Quals(t.pointee), Quals(h.pointee))
        && (Quals(t.pointee) == Quals(h.pointee) || Const in h.flags) {
      RequalifiesJoin(t.flags, Quals(t.pointee), h.flags, Quals(h.pointee));
    }
  }

  // Pointers to members make no difference to a conversion unless all levels down to one are const.
  lemma {:induction false} MixedIsPlain(h: Type, t: Type)
    requires Bottom(h).Member? ==> !ConstToMember(h)
    ensures MixedConverts(t, h) <==> Converts(t, h)
    decreases h
  {
    if h.Pointer? && t.Pointer? {
      MixedInner(h, t);
      ConvertsInner(h, t);
      if Const in h.flags {
        MixedIsPlain(h.pointee, t.pointee);
      }
    } else if h.Pointer? {
      assert Contexts(h)[0] == None && Levels(h) != [];
      assert t.Member? ==> Contexts(t)[0] == Some(t.context);
    } else {
      assert Quals(h) == [] && Levels(h) == [];
      assert t.Pointer? || t.Member? ==> Quals(t) != [];
      assert t.Pointer? ==> Levels(t) != [];
    }
  }

  // A pointer where the handler has a pointer to member: no conversion, and caught only below const.
  lemma {:induction false} MistakenDiffers(h: Type, t: Type)
    requires Mistaken(h, t)
    ensures |Levels(t)| > |Levels(h)|
    ensures h.Pointer? && ConstAbove(h, t) ==> ConstToMember(h)
    decreases h
  {
    if h.Pointer? {
      MistakenDiffers(h.pointee, t.pointee);
      LevelsOf(h);
      LevelsOf(t);
    }
  }

  // The handler with its pointer to member taken for a pointer.
  function Bare(h: Type): Type {
    match h
    case Pointer(flags, pointee) => Pointer(flags, Bare(pointee))
    case Member(flags, pointee, _) => Pointer(flags, pointee)
    case _ => h
  }

  lemma {:induction false} BareCaught(h: Type)
    requires Bottom(h).Member? && ConstToMember(h)
    ensures Mistaken(h, Bare(h)) && ConstAbove(h, Bare(h)) && Skin(h, Bare(h)) == Bare(h)
    ensures Contexts(h) != Contexts(Bare(h)) && (Complete(h) ==> Complete(Bare(h)))
    decreases h
  {
    if h.Pointer? {
      BareCaught(h.pointee);
      assert Contexts(h)[1..] == Contexts(h.pointee) && Contexts(Bare(h))[1..] == Contexts(Bare(h.pointee));
    } else {
      SkinPlain(h.pointee, h.pointee);
      assert Contexts(h)[0] != Contexts(Bare(h))[0];
    }
  }

  lemma MemberBelow(g: Graph, mem: Memory, h: Type, t: Type, obj: int)
    requires Acyclic(g) && h.Pointer? && Bottom(h).Member? && !ConstToMember(h)
    ensures DoCatch(g, mem, h, t, obj, true).Some? <==> Standard(g, t, h)
  {
    MixedIsPlain(h, t);
    CatchExactly(g, mem, h, t, obj);
    SkinPlain(h, t);
    SameType(h, t);
    if Mistaken(h, t) {
      MistakenDiffers(h, t);
    }
  }

  // A handler for a pointer to pointer goes beyond the standard exactly where it catches without a
  // qualification conversion, which takes const at all its levels but the last, and void or a base
  // class at its end.
  lemma DeepExcess(g: Graph, mem: Memory, h: Type, t: Type, obj: int)
    requires Acyclic(g) && h.Pointer? && h.pointee.Pointer? && !Bottom(h).Member?
    ensures var caught := DoCatch(g, mem, h, t, obj, true).Some?;
      && (Standard(g, t, h) ==> caught)
      && (caught && !Standard(g, t, h) <==> caught && !Converts(t, h))
      && (caught && !Converts(t, h) ==>
          ConstOuter(h) && (Bottom(h) == Void || (Bottom(h).OfClass? && HasDerived(g, Bottom(h).cls))))
  {
    MixedIsPlain(h, t);
    NotMistaken(h, t);
    CatchIsRule(g, mem, h, t, obj, true);
    SameType(h, t);
    if Rule(g, mem, h, t, obj).Some? && !Converts(t, h) {
      CoversConst(h, t);
      if Bottom(h).OfClass? {
        var d := Bottom(t).cls;
        UpcastReaches(g, mem, d, Bottom(h).cls, obj);
        if d == Bottom(h).cls {
          CoversConverts(h, t);
        }
        assert Reaches(g, d, Bottom(h).cls);
      }
    }
  }

  lemma {:induction false} CoversConst(h: Type, t: Type)
    requires Covers(Levels(t), Levels(h))
    ensures ConstOuter(h)
    decreases h
  {
    if h.Pointer? && h.pointee.Pointer? {
      LevelsOf(h);
      LevelsOf(t);
      CoversInner(h, t);
      CoversConst(h.pointee, t.pointee);
    }
  }

  lemma CoversConverts(h: Type, t: Type)
    requires Covers(Levels(t), Levels(h)) && |Levels(t)| == |Levels(h)| && Bottom(t) == Bottom(h)
    ensures Converts(t, h)
  {
  }

  // A thrown pointer type that reaches as deep as the handler and ends in another type.
  function With(h: Type, bottom: Type): Type
    decreases h
  {
    if h.Pointer? then Pointer(h.flags, With(h.pointee, bottom)) else bottom
  }

  lemma {:induction false} WithCovers(h: Type, bottom: Type)
    requires !bottom.Pointer? && ConstOuter(h)
    ensures Bottom(With(h, bottom)) == bottom && Levels(With(h, bottom)) == Levels(h)
    ensures Covers(Levels(h), Levels(h))
    ensures Complete(h) && Complete(bottom) ==> Complete(With(h, bottom))
    decreases h
  {
    if h.Pointer? {
      WithCovers(h.pointee, bottom);
      CoversInner(h, h);
    }
  }

  // So where these hold, some type is caught that the standard would not catch.
  lemma DeepWrong(g: Graph, mem: Memory, h: Type, obj: int) returns (t: Type)
    requires Acyclic(g) && Complete(h) && h.Pointer? && h.pointee.Pointer? && ConstOuter(h)
    requires Bottom(h) == Void || (Bottom(h).OfClass? && HasDerived(g, Bottom(h).cls))
    ensures Complete(t) && DoCatch(g, mem, h, t, obj, true).Some? && !Standard(g, t, h)
  {
    var bottom := Basic(0);
    if Bottom(h).OfClass? {
      var d: ClassId :| d < |g| && d != Bottom(h).cls && Reaches(g, d, Bottom(h).cls);
      UpcastReaches(g, mem, d, Bottom(h).cls, obj);
      bottom := OfClass(d);
    }
    t := With(h, bottom);
    WithCovers(h, bottom);
    MixedIsPlain(h, t);
    NotMistaken(h, t);
    CatchIsRule(g, mem, h, t, obj, true);
    SameType(h, t);
  }

  // A class handler, or one for a pointer to a class.
  lemma ClassAgrees(g: Graph, mem: Memory, cls: ClassId, d: ClassId, obj: int)
    requires Acyclic(g) && d < |g|
    ensures Upcast(g, mem, d, cls, obj).Some? <==> Reaches(g, d, cls)
    ensures ProperBase(g, d, cls) ==> Reaches(g, d, cls)
  {
    UpcastReaches(g, mem, d, cls, obj);
  }

  lemma ShallowCatch(g: Graph, mem: Memory, h: Type, t: Type, obj: int)
    requires Acyclic(g) && h.Pointer? && !h.pointee.Pointer? && !h.pointee.Member?
    ensures DoCatch(g, mem, h, t, obj, true) ==
      if h == t then Some(obj)
      else if !t.Pointer? || !(t.flags <= h.flags) then None
      else if h.pointee == Void || h.pointee == t.pointee then Some(obj)
      else if h.pointee.OfClass? && t.pointee.OfClass? && t.pointee.cls < |g| then Upcast(g, mem, t.pointee.cls, h.pointee.cls, obj)
      else None
    ensures t.Pointer? ==> (Converts(t, h) <==> t.flags <= h.flags && h.pointee == t.pointee)
  {
    if t.Pointer? {
      ConvertsInner(h, t);
      SameType(h.pointee, t.pointee);
      if h != t && t.flags <= h.flags && h.pointee != Void {
        assert DoCatch(g, mem, h, t, obj, true) == DoCatch(g, mem, h.pointee, t.pointee, obj, Const in h.flags);
      }
    }
  }

  lemma ClassCatch(g: Graph, mem: Memory, cls: ClassId, t: Type, obj: int)
    requires Acyclic(g)
    ensures DoCatch(g, mem, OfClass(cls), t, obj, true) ==
      if t == OfClass(cls) then Some(obj)
      else if t.OfClass? && t.cls < |g| then Upcast(g, mem, t.cls, cls, obj)
      else None
  {
  }

  // A handler for a pointer to void catches what the standard says, but for pointers to functions.
  lemma VoidAgrees(g: Graph, mem: Memory, flags: set<Flag>, t: Type, obj: int)
    requires Acyclic(g)
    ensures var h := Pointer(flags, Void);
      && (Standard(g, t, h) ==> DoCatch(g, mem, h, t, obj, true).Some?)
      && (DoCatch(g, mem, h, t, obj, true).Some? && !Standard(g, t, h) <==> t.Pointer? && t.flags <= flags && t.pointee.Function?)
  {
    var h := Pointer(flags, Void);
    assert Bottom(h) == Void;
    MixedIsPlain(h, t);
    VoidPointerCatch(g, mem, flags, t, obj);
    if t.Pointer? {
      LevelsOf(h);
      ShallowCatch(g, mem, h, t, obj);
    }
  }

  // A handler that is sound catches what the standard says.
  lemma SoundCatch(g: Graph, mem: Memory, h: Type, t: Type, obj: int)
    requires Acyclic(g) && Sound(g, h)
    ensures DoCatch(g, mem, h, t, obj, true).Some? <==> Standard(g, t, h)
  {
    if h.OfClass? {
      ClassCatch(g, mem, h.cls, t, obj);
      if t.OfClass? && t.cls < |g| {
        ClassAgrees(g, mem, h.cls, t.cls, obj);
      }
    } else if h.Pointer? && Bottom(h).Member? {
      MemberBelow(g, mem, h, t, obj);
    } else if h.Pointer? && h.pointee.Pointer? {
      DeepExcess(g, mem, h, t, obj);
    } else if h.Pointer? {
      MixedIsPlain(h, t);
      ShallowCatch(g, mem, h, t, obj);
      if h.pointee.OfClass? && t.Pointer? && t.pointee.OfClass? && t.pointee.cls < |g| {
        ClassAgrees(g, mem, h.pointee.cls, t.pointee.cls, obj);
      }
    }
  }

  // A handler that is not sound catches something that the standard does not let it catch.
  lemma UnsoundCatch(g: Graph, mem: Memory, h: Type, obj: int) returns (t: Type)
    requires Acyclic(g) && Complete(h) && !Sound(g, h)
    ensures Complete(t) && DoCatch(g, mem, h, t, obj, true).Some? && !Standard(g, t, h)
  {
    match h
    case OfClass(cls) =>
      var d: ClassId :| d < |g| && Reaches(g, d, cls) && !ProperBase(g, d, cls);
      t := OfClass(d);
      ClassAgrees(g, mem, cls, d, obj);
      ClassCatch(g, mem, cls, t, obj);
      SelfProper(g, cls);
    case Member(flags, pointee, _) =>
      t := Pointer(flags, pointee);
      MemberCatch(g, mem, h, t, obj);
    case Pointer(flags, pointee) =>
      if pointee == Void {
        t := Pointer({}, Function(0));
        VoidAgrees(g, mem, flags, t, obj);
      } else if pointee.OfClass? {
        var d: ClassId :| d < |g| && Reaches(g, d, pointee.cls) && !ProperBase(g, d, pointee.cls);
        t := Pointer(flags, OfClass(d));
        LevelsOf(h);
        MixedIsPlain(h, t);
        ClassAgrees(g, mem, pointee.cls, d, obj);
        ShallowCatch(g, mem, h, t, obj);
        SelfProper(g, pointee.cls);
      } else if Bottom(h).Member? {
        t := Bare(h);
        BareCaught(h);
        CatchExactly(g, mem, h, t, obj);
        ConvertsSelf(t);
      } else {
        t := DeepWrong(g, mem, h, obj);
      }
  }

  // Every class is an unambiguous public base of itself.
  lemma SelfProper(g: Graph, cls: ClassId)
    requires Acyclic(g)
    ensures ProperBase(g, cls, cls)
  {
    forall p, q | Leads(g, cls, p, cls) && Leads(g, cls, q, cls) ensures Named(g, cls, p) == Named(g, cls, q) {
      PathsDescend(g, cls, p);
      PathsDescend(g, cls, q);
    }
    assert Leads(g, cls, [], cls) && PublicPath(g, cls, []);
  }

  // The handlers that catch exactly what the standard says are the sound ones: a condition on the
  // shape of the handler and on the classes.
  lemma AgreesExactly(g: Graph, h: Type)
    requires Acyclic(g) && Complete(h)
    ensures Agrees(g, h) <==> Sound(g, h)
  {
    if Sound(g, h) {
      forall mem: Memory, t: Type, obj: int | Complete(t)
        ensures DoCatch(g, mem, h, t, obj, true).Some? <==> Standard(g, t, h)
      {
        SoundCatch(g, mem, h, t, obj);
      }
    } else {
      var mem := Memory((_, _) => 0, _ => 0, _ => 0);
      var t := UnsoundCatch(g, mem, h, 0);
    }
  }

  // ----- What the standard catches and the code refuses -----

  // The two kinds of conversion differ only in what is at and below a pointer to member.
  lemma {:induction false} MixedAbove(h: Type, t: Type)
    ensures Converts(t, h) && !Bottom(h).Member? ==> MixedConverts(t, h)
    ensures MixedConverts(t, h) && Bottom(t) == Bottom(h) ==> Converts(t, h)
    decreases h
  {
    if h.Pointer? && t.Pointer? {
      MixedInner(h, t);
      ConvertsInner(h, t);
      MixedAbove(h.pointee, t.pointee);
    } else {
      FirstContext(h);
      FirstContext(t);
      assert (Levels(h) == [] <==> !h.Pointer?) && (Levels(t) == [] <==> !t.Pointer?);
    }
  }

  lemma FirstContext(t: Type)
    ensures t.Pointer? ==> Contexts(t) != [] && Contexts(t)[0] == None && Contexts(t)[1..] == Contexts(t.pointee)
    ensures t.Member? ==> Contexts(t) != [] && Contexts(t)[0] == Some(t.context)
    ensures !t.Pointer? && !t.Member? ==> Contexts(t) == []
  {
  }

  lemma {:induction false} MixedNotMistaken(h: Type, t: Type)
    requires Contexts(h) == Contexts(t)
    ensures !Mistaken(h, t)
    decreases h
  {
    FirstContext(h);
    FirstContext(t);
    if h.Pointer? && t.Pointer? {
      MixedNotMistaken(h.pointee, t.pointee);
    }
  }

  // The code refuses what the standard catches exactly for qualification conversions between pointers
  // that change the pointers to members they lead to.
  lemma RefusesExactly(g: Graph, mem: Memory, h: Type, t: Type, obj: int)
    requires Acyclic(g)
    ensures Standard(g, t, h) && DoCatch(g, mem, h, t, obj, true) == None
      <==> h.Pointer? && t.Pointer? && MixedConverts(t, h) && Bottom(t) != Bottom(h)
  {
    if h.OfClass? {
      ClassCatch(g, mem, h.cls, t, obj);
      if t.OfClass? && t.cls < |g| {
        ClassAgrees(g, mem, h.cls, t.cls, obj);
      }
    } else if h.Pointer? && t.Pointer? {
      MixedAbove(h, t);
      if MixedConverts(t, h) {
        MixedNotMistaken(h, t);
        CatchIsRule(g, mem, h, t, obj, true);
        if Bottom(t) != Bottom(h) {
          MixedBottom(h, t);
        }
      } else if PointerConverts(g, t, h) {
        ShallowCatch(g, mem, h, t, obj);
        if h.pointee.OfClass? {
          ClassAgrees(g, mem, h.pointee.cls, t.pointee.cls, obj);
        }
      }
    }
  }

  lemma {:induction false} MixedBottom(h: Type, t: Type)
    requires MixedConverts(t, h) && Bottom(t) != Bottom(h)
    ensures Bottom(h).Member? && Bottom(t).Member?
    decreases h
  {
    if h.Pointer? && t.Pointer? {
      MixedInner(h, t);
      MixedBottom(h.pointee, t.pointee);
    } else {
      FirstContext(h);
      FirstContext(t);
    }
  }

  // A handler for a pointer to const pointer to member of type const int does not catch a pointer to
  // pointer to member of type int.
  lemma CatchesTooLittle(g: Graph, mem: Memory)
    requires Acyclic(g)
    ensures var h, t := Pointer({Const}, Member({Const}, Basic(5), 0)), Pointer({}, Member({}, Basic(5), 0));
      Standard(g, t, h) && DoCatch(g, mem, h, t, 8, true) == None
  {
    var h, t := Pointer({Const}, Member({Const}, Basic(5), 0)), Pointer({}, Member({}, Basic(5), 0));
    assert Quals(h.pointee) == [{Const}] && Quals(t.pointee) == [{}];
    MixedInner(h, t);
  }

  // ----- Null pointers -----

  // Whatever is in memory, the handler gets null for null.
  ghost predicate CatchesNull(g: Graph, h: Type, t: Type)
    requires Acyclic(g)
  {
    forall mem: Memory :: DoCatch(g, mem, h, t, 0, true) == Some(0)
  }

  // A null pointer to a class that is caught as a pointer to a base is null for the handler exactly if
  // no step of the path to the base is to a virtual base, and the offsets of the steps come to nothing.
  // The standard (section 4.10) wants it null in any case.
  lemma NullCatch(g: Graph, flags: set<Flag>, target: ClassId, t: Type)
    requires Acyclic(g) && t.Pointer? && t.flags <= flags && t.pointee.OfClass? && t.pointee.cls < |g|
    requires Route(g, t.pointee.cls, target).Some?
    ensures IsPath(g, t.pointee.cls, Route(g, t.pointee.cls, target).value)
    ensures var path := Route(g, t.pointee.cls, target).value;
      CatchesNull(g, Pointer(flags, OfClass(target)), t) <==>
        Virtuals(g, t.pointee.cls, path) == 0 && Shift(g, t.pointee.cls, path) == 0
  {
    NullUpcast(g, t.pointee.cls, target);
    forall mem: Memory
      ensures DoCatch(g, mem, Pointer(flags, OfClass(target)), t, 0, true) == Upcast(g, mem, t.pointee.cls, target, 0)
    {
      ClassPointerCatch(g, mem, flags, target, t, 0);
    }
  }

  // A null pointer to a class with two bases, caught as a pointer to the second.
  lemma NullMoves(mem: Memory)
    ensures var g := [Plain, Plain, Vmi([Base(0, 2), Base(1, 0x802)])];
      Acyclic(g) && DoCatch(g, mem, Pointer({}, OfClass(1)), Pointer({}, OfClass(2)), 0, true) == Some(8)
  {
    var g := [Plain, Plain, Vmi([Base(0, 2), Base(1, 0x802)])];
    ClassPointerCatch(g, mem, {}, 1, Pointer({}, OfClass(2)), 0);
    assert UpcastFrom(g, mem, 2, 0, 1, 0) == UpcastFrom(g, mem, 2, 1, 1, 0);
  }

  // Concrete instances: a handler for a pointer to const pointer to base catches a pointer to pointer
  // to derived, one for a pointer to const pointer to void catches a pointer to pointer to int, one
  // for a pointer to member catches a plain pointer, and one for a pointer to void catches a pointer
  // to a function.
  lemma CatchesTooMuch(mem: Memory)
    ensures var g := [Plain, Si(0)];
      && Acyclic(g)
      && DoCatch(g, mem, Pointer({Const}, Pointer({}, OfClass(0))), Pointer({}, Pointer({}, OfClass(1))), 8, true) == Some(8)
      && DoCatch(g, mem, Pointer({Const}, Pointer({}, Void)), Pointer({}, Pointer({}, Basic(5))), 8, true) == Some(8)
      && DoCatch(g, mem, Member({}, Basic(5), 1), Pointer({}, Basic(5)), 8, true) == Some(8)
      && DoCatch(g, mem, Pointer({}, Void), Pointer({}, Function(5)), 8, true) == Some(8)
  {
    var g := [Plain, Si(0)];
    assert Upcast(g, mem, 1, 0, 8) == Upcast(g, mem, 0, 0, 8);
    assert DoCatch(g, mem, OfClass(0), OfClass(1), 8, true) == Some(8);
    assert DoCatch(g, mem, Pointer({}, OfClass(0)), Pointer({}, OfClass(1)), 8, true) == DoCatch(g, mem, OfClass(0), OfClass(1), 8, false);
    assert DoCatch(g, mem, Pointer({}, Void), Pointer({}, Basic(5)), 8, true) == Some(8);
  }
}
