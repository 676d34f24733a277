// The class graph of src/typeinfo.h and the casts of src/dynamic_cast.cc.
module Casts {
  import opened Lists

  type ClassId = nat

  // A base of a class. The low bits of the packed word are flags, the rest is the signed offset.
  datatype Base = Base(cls: ClassId, offsetFlags: int) {
    function Offset(): int { offsetFlags / 0x100 }
    predicate IsVirtual() { offsetFlags % 2 == 1 }
    predicate IsPublic() { offsetFlags / 2 % 2 == 1 }
  }

  // __class_type_info, __si_class_type_info and __vmi_class_type_info.
  datatype Class = Plain | Si(base: ClassId) | Vmi(bases: seq<Base>)

  // Classes are numbered, bases before the classes that have them.
  type Graph = seq<Class>

  // What the casts read from memory, by the address of a subobject: the virtual base offset at a
  // place in its virtual table, and the header in front of the table.
  datatype Memory = Memory(virtualOffset: (int, int) -> int, leafOffset: int -> int, leafType: int -> ClassId)

  function BasesOf(g: Graph, c: ClassId): seq<Base>
    requires c < |g|
  {
    match g[c]
    case Plain => []
    case Si(b) => [Base(b, 2)]      // one public base that is not virtual, at offset 0
    case Vmi(bases) => bases
  }

  ghost predicate Acyclic(g: Graph) {
    forall c: ClassId, i: nat :: c < |g| && i < |BasesOf(g, c)| ==> BasesOf(g, c)[i].cls < c
  }

  // Where a base of an object is.
  function BaseAt(mem: Memory, b: Base, obj: int): int {
    obj + if b.IsVirtual() then mem.virtualOffset(obj, b.Offset()) else b.Offset()
  }

  // ----- __do_upcast -----

  function Upcast(g: Graph, mem: Memory, c: ClassId, target: ClassId, obj: int): Option<int>
    requires Acyclic(g) && c < |g|
    decreases c, 1, 0
  {
    if c == target then Some(obj)
    else
      match g[c]
      case Plain => None
      case Si(b) => assert b == BasesOf(g, c)[0].cls; Upcast(g, mem, b, target, obj)
      case Vmi(bases) => UpcastFrom(g, mem, c, 0, target, obj)
  }

  // From the i-th base on.
  function UpcastFrom(g: Graph, mem: Memory, c: ClassId, i: nat, target: ClassId, obj: int): Option<int>
    requires Acyclic(g) && c < |g| && i <= |BasesOf(g, c)|
    decreases c, 0, |BasesOf(g, c)| - i
  {
    if i == |BasesOf(g, c)| then None
    else
      var b := BasesOf(g, c)[i];
      var cast := BaseAt(mem, b, obj);
      var found := if b.cls == target then Some(cast) else Upcast(g, mem, b.cls, target, cast);
      if found.Some? then found else UpcastFrom(g, mem, c, i + 1, target, obj)
  }

  class Pointer {
    var value: int

    constructor (value: int)
      ensures this.value == value
    {
      this.value := value;
    }
  }

  // The search moves the pointer it is given, and leaves it alone when it fails.
  method DoUpcast(g: Graph, mem: Memory, c: ClassId, target: ClassId, thrown: Pointer) returns (ok: bool)
    requires Acyclic(g) && c < |g|
    modifies thrown
    ensures ok <==> Upcast(g, mem, c, target, old(thrown.value)).Some?
    ensures thrown.value == if ok then Upcast(g, mem, c, target, old(thrown.value)).value else old(thrown.value)
    decreases c
  {
    if c == target {
      return true;
    }
    match g[c]
    case Plain =>
      return false;
    case Si(b) =>
      assert b == BasesOf(g, c)[0].cls;
      ok := DoUpcast(g, mem, b, target, thrown);
    case Vmi(bases) =>
      for i := 0 to |bases|
        invariant thrown.value == old(thrown.value)
        invariant Upcast(g, mem, c, target, thrown.value) == UpcastFrom(g, mem, c, i, target, thrown.value)
      {
        assert bases[i] == BasesOf(g, c)[i];
        var cast := new Pointer(BaseAt(mem, bases[i], thrown.value));
        var found := bases[i].cls == target;
        if !found {
          found := DoUpcast(g, mem, bases[i].cls, target, cast);
        }
        if found {
          thrown.value := cast.value;
          return true;
        }
      }
      return false;
  }

  // cast_to; 0 is the null pointer.
  function CastTo(g: Graph, mem: Memory, c: ClassId, obj: int, other: ClassId): int
    requires Acyclic(g) && c < |g|
    decreases c
  {
    match g[c]
    case Plain => if c == other then obj else 0
    case Si(b) => assert b == BasesOf(g, c)[0].cls; if c == other then obj else CastTo(g, mem, b, obj, other)
    case Vmi(_) =>
      match Upcast(g, mem, c, other, obj) case Some(p) => p case None => 0
  }

  // __dynamic_cast
  function DynamicCast(g: Graph, mem: Memory, sub: int, dst: ClassId): int
    requires Acyclic(g) && mem.leafType(sub) < |g|
  {
    CastTo(g, mem, mem.leafType(sub), sub + mem.leafOffset(sub), dst)
  }

  // ----- Subobjects -----

  // A path names a base at each step.
  predicate IsPath(g: Graph, c: ClassId, path: seq<nat>)
    decreases |path|
  {
    path == [] || (c < |g| && path[0] < |BasesOf(g, c)| && IsPath(g, BasesOf(g, c)[path[0]].cls, path[1..]))
  }

  // The class and the address at the end of a path.
  function EndClass(g: Graph, c: ClassId, path: seq<nat>): ClassId
    requires IsPath(g, c, path)
    decreases |path|
  {
    if path == [] then c else EndClass(g, BasesOf(g, c)[path[0]].cls, path[1..])
  }

  function Address(g: Graph, mem: Memory, c: ClassId, obj: int, path: seq<nat>): int
    requires IsPath(g, c, path)
    decreases |path|
  {
    if path == [] then obj
    else var b := BasesOf(g, c)[path[0]]; Address(g, mem, b.cls, BaseAt(mem, b, obj), path[1..])
  }

  // The length of the path up to its last step to a virtual base.
  function LastVirtual(g: Graph, c: ClassId, path: seq<nat>): (k: nat)
    requires IsPath(g, c, path)
    ensures k <= |path|
    decreases |path|
  {
    if path == [] then 0
    else
      var b := BasesOf(g, c)[path[0]];
      var k := LastVirtual(g, b.cls, path[1..]);
      if k > 0 then k + 1 else if b.IsVirtual() then 1 else 0
  }

  // A class has one subobject for each virtual base, and one for each way to go on from there, or
  // from the complete object, through bases that are not virtual.
  datatype Subobject = Subobject(root: ClassId, rest: seq<nat>)

  function Named(g: Graph, c: ClassId, path: seq<nat>): Subobject
    requires IsPath(g, c, path)
  {
    var k := LastVirtual(g, c, path);
    Cut(g, c, path, k);
    Subobject(EndClass(g, c, path[..k]), path[k..])
  }

  // A path leads to its prefix and goes on from there.
  lemma {:induction false} Cut(g: Graph, c: ClassId, path: seq<nat>, k: nat)
    requires IsPath(g, c, path) && k <= |path|
    ensures IsPath(g, c, path[..k]) && IsPath(g, EndClass(g, c, path[..k]), path[k..])
    ensures EndClass(g, c, path) == EndClass(g, EndClass(g, c, path[..k]), path[k..])
    decreases |path|
  {
    if k > 0 {
      Cut(g, BasesOf(g, c)[path[0]].cls, path[1..], k - 1);
      assert path[..k][1..] == path[1..][..k - 1];
      assert path[k..] == path[1..][k - 1..];
    } else {
      assert path[..k] == [] && path[k..] == path;
    }
  }

  lemma {:induction false} CutAddress(g: Graph, mem: Memory, c: ClassId, obj: int, path: seq<nat>, k: nat)
    requires IsPath(g, c, path) && k <= |path|
    requires IsPath(g, c, path[..k]) && IsPath(g, EndClass(g, c, path[..k]), path[k..])
    ensures Address(g, mem, c, obj, path)
      == Address(g, mem, EndClass(g, c, path[..k]), Address(g, mem, c, obj, path[..k]), path[k..])
    decreases |path|
  {
    if k > 0 {
      var b := BasesOf(g, c)[path[0]];
      assert path[..k][1..] == path[1..][..k - 1];
      assert path[k..] == path[1..][k - 1..];
      CutAddress(g, mem, b.cls, BaseAt(mem, b, obj), path[1..], k - 1);
    } else {
      assert path[..k] == [] && path[k..] == path;
    }
  }

  // The last step of a path is to a virtual base.
  predicate EndsVirtual(g: Graph, c: ClassId, path: seq<nat>)
    requires IsPath(g, c, path)
  {
    path != [] && LastVirtual(g, c, path) == |path|
  }

  lemma {:induction false} LastVirtualEnds(g: Graph, c: ClassId, path: seq<nat>)
    requires IsPath(g, c, path) && LastVirtual(g, c, path) > 0
    ensures var k := LastVirtual(g, c, path); IsPath(g, c, path[..k]) && EndsVirtual(g, c, path[..k])
    decreases |path|
  {
    var k := LastVirtual(g, c, path);
    Cut(g, c, path, k);
    var b := BasesOf(g, c)[path[0]];
    assert path[..k][1..] == path[1..][..k - 1];
    if LastVirtual(g, b.cls, path[1..]) > 0 {
      LastVirtualEnds(g, b.cls, path[1..]);
    }
  }

  // Every virtual base of the object is in one place, whichever way leads to it.
  ghost predicate Located(g: Graph, mem: Memory, c: ClassId, obj: int) {
    forall p, q ::
      IsPath(g, c, p) && IsPath(g, c, q) && EndsVirtual(g, c, p) && EndsVirtual(g, c, q)
      && EndClass(g, c, p) == EndClass(g, c, q)
      ==> Address(g, mem, c, obj, p) == Address(g, mem, c, obj, q)
  }

  lemma {:induction false} PathsDescend(g: Graph, c: ClassId, path: seq<nat>)
    requires Acyclic(g) && IsPath(g, c, path)
    ensures EndClass(g, c, path) <= c && (path != [] ==> EndClass(g, c, path) < c)
    decreases |path|
  {
    if path != [] {
      PathsDescend(g, BasesOf(g, c)[path[0]].cls, path[1..]);
    }
  }

  // Paths to the same subobject give the same address.
  lemma SubobjectAddress(g: Graph, mem: Memory, c: ClassId, obj: int, p: seq<nat>, q: seq<nat>)
    requires Acyclic(g) && Located(g, mem, c, obj)
    requires IsPath(g, c, p) && IsPath(g, c, q) && Named(g, c, p) == Named(g, c, q)
    ensures Address(g, mem, c, obj, p) == Address(g, mem, c, obj, q)
  {
    var k, m := LastVirtual(g, c, p), LastVirtual(g, c, q);
    Cut(g, c, p, k);
    Cut(g, c, q, m);
    CutAddress(g, mem, c, obj, p, k);
    CutAddress(g, mem, c, obj, q, m);
    PathsDescend(g, c, p[..k]);
    PathsDescend(g, c, q[..m]);
    if k > 0 && m > 0 {
      LastVirtualEnds(g, c, p);
      LastVirtualEnds(g, c, q);
    }
  }

  // ----- The upcast finds the subobject -----

  ghost predicate Leads(g: Graph, c: ClassId, path: seq<nat>, target: ClassId) {
    IsPath(g, c, path) && EndClass(g, c, path) == target
  }

  // The path that the search takes: which one it is depends on the classes alone, not on the object.
  function Route(g: Graph, c: ClassId, target: ClassId): Option<seq<nat>>
    requires Acyclic(g) && c < |g|
    decreases c, 1, 0
  {
    if c == target then Some([]) else RouteFrom(g, c, 0, target)
  }

  function RouteFrom(g: Graph, c: ClassId, i: nat, target: ClassId): Option<seq<nat>>
    requires Acyclic(g) && c < |g| && i <= |BasesOf(g, c)|
    decreases c, 0, |BasesOf(g, c)| - i
  {
    if i == |BasesOf(g, c)| then None
    else
      match Route(g, BasesOf(g, c)[i].cls, target)
      case Some(rest) => Some([i] + rest)
      case None => RouteFrom(g, c, i + 1, target)
  }

  // The search answers with the address at the end of that path, which leads to the target.
  lemma {:induction false} UpcastFound(g: Graph, mem: Memory, c: ClassId, target: ClassId, obj: int)
    requires Acyclic(g) && c < |g|
    ensures match Route(g, c, target)
      case None => Upcast(g, mem, c, target, obj) == None
      case Some(path) => Leads(g, c, path, target) && Upcast(g, mem, c, target, obj) == Some(Address(g, mem, c, obj, path))
    decreases c, 1, 0
  {
    if c != target {
      UpcastIsFrom(g, mem, c, target, obj);
      UpcastFromFound(g, mem, c, 0, target, obj);
    }
  }

  // All three kinds of class search their bases in order.
  lemma UpcastIsFrom(g: Graph, mem: Memory, c: ClassId, target: ClassId, obj: int)
    requires Acyclic(g) && c < |g|
    ensures Upcast(g, mem, c, target, obj) == if c == target then Some(obj) else UpcastFrom(g, mem, c, 0, target, obj)
  {
    match g[c]
    case Plain =>
    case Si(b) =>
      assert UpcastFrom(g, mem, c, 1, target, obj) == None;
      assert BasesOf(g, c)[0] == Base(b, 2) && BaseAt(mem, Base(b, 2), obj) == obj;
    case Vmi(_) =>
  }

  lemma {:induction false} UpcastFromFound(g: Graph, mem: Memory, c: ClassId, i: nat, target: ClassId, obj: int)
    requires Acyclic(g) && c < |g| && i <= |BasesOf(g, c)|
    ensures match RouteFrom(g, c, i, target)
      case None => UpcastFrom(g, mem, c, i, target, obj) == None
      case Some(path) => Leads(g, c, path, target) && UpcastFrom(g, mem, c, i, target, obj) == Some(Address(g, mem, c, obj, path))
    decreases c, 0, |BasesOf(g, c)| - i
  {
    if i < |BasesOf(g, c)| {
      var b := BasesOf(g, c)[i];
      var route := Route(g, b.cls, target);
      UpcastFound(g, mem, b.cls, target, BaseAt(mem, b, obj));
      UpcastFromFound(g, mem, c, i + 1, target, obj);
      if route.Some? {
        assert ([i] + route.value)[1..] == route.value;
      }
    }
  }

  // It answers whenever there is a path.
  lemma {:induction false} UpcastComplete(g: Graph, mem: Memory, c: ClassId, target: ClassId, obj: int, path: seq<nat>)
    requires Acyclic(g) && c < |g| && Leads(g, c, path, target)
    ensures Upcast(g, mem, c, target, obj).Some?
    decreases c, 1, 0
  {
    if c != target {
      UpcastIsFrom(g, mem, c, target, obj);
      UpcastFromComplete(g, mem, c, 0, target, obj, path);
    }
  }

  lemma {:induction false} UpcastFromComplete(g: Graph, mem: Memory, c: ClassId, i: nat, target: ClassId, obj: int, path: seq<nat>)
    requires Acyclic(g) && c < |g| && Leads(g, c, path, target) && path != [] && i <= path[0] < |BasesOf(g, c)|
    ensures UpcastFrom(g, mem, c, i, target, obj).Some?
    decreases c, 0, |BasesOf(g, c)| - i
  {
    var b := BasesOf(g, c)[i];
    if i < path[0] {
      UpcastFromComplete(g, mem, c, i + 1, target, obj, path);
    } else {
      UpcastComplete(g, mem, b.cls, target, BaseAt(mem, b, obj), path[1..]);
    }
  }

  // The target names one subobject.
  ghost predicate Unique(g: Graph, c: ClassId, target: ClassId) {
    forall p, q :: Leads(g, c, p, target) && Leads(g, c, q, target) ==> Named(g, c, p) == Named(g, c, q)
  }

  // The upcast succeeds exactly when the target can be reached, and then moves the pointer to the
  // one subobject of that class, whichever path leads to it.
  lemma UpcastMeaning(g: Graph, mem: Memory, c: ClassId, target: ClassId, obj: int)
    requires Acyclic(g) && c < |g| && Located(g, mem, c, obj) && Unique(g, c, target)
    ensures Upcast(g, mem, c, target, obj).Some? <==> exists path :: Leads(g, c, path, target)
    ensures forall path :: Leads(g, c, path, target) ==> Upcast(g, mem, c, target, obj) == Some(Address(g, mem, c, obj, path))
  {
    forall path | Leads(g, c, path, target) ensures Upcast(g, mem, c, target, obj) == Some(Address(g, mem, c, obj, path)) {
      UpcastComplete(g, mem, c, target, obj, path);
      UpcastFound(g, mem, c, target, obj);
      SubobjectAddress(g, mem, c, obj, path, Route(g, c, target).value);
    }
    if Upcast(g, mem, c, target, obj).Some? {
      UpcastFound(g, mem, c, target, obj);
    }
  }

  // ----- Objects laid out in memory -----

  // Where the steps of a path lead in an object whose virtual bases have these homes. The lowest bit of
  // the packed word of a base says that it is virtual; otherwise the bits from the ninth up are how far
  // away it is.
  function Place(g: Graph, home: map<ClassId, int>, c: ClassId, at: int, path: seq<nat>): int
    requires IsPath(g, c, path)
    decreases |path|
  {
    if path == [] then at
    else
      var b := BasesOf(g, c)[path[0]];
      var next := if b.offsetFlags % 2 == 1 && b.cls in home then home[b.cls] else at + b.offsetFlags / 0x100;
      Place(g, home, b.cls, next, path[1..])
  }

  // Every subobject finds each of its virtual bases in the slot of its virtual table that the packed
  // word names.
  ghost predicate LaidOut(g: Graph, mem: Memory, home: map<ClassId, int>, c: ClassId, obj: int) {
    forall path :: IsPath(g, c, path) ==> FindsBases(g, mem, home, EndClass(g, c, path), Place(g, home, c, obj, path))
  }

  ghost predicate FindsBases(g: Graph, mem: Memory, home: map<ClassId, int>, d: ClassId, at: int) {
    d < |g| ==> forall b :: b in BasesOf(g, d) && b.offsetFlags % 2 == 1 ==>
      b.cls in home && mem.virtualOffset(at, b.offsetFlags / 0x100) == home[b.cls] - at
  }

  lemma LaidOutStep(g: Graph, mem: Memory, home: map<ClassId, int>, c: ClassId, obj: int, i: nat)
    requires LaidOut(g, mem, home, c, obj) && c < |g| && i < |BasesOf(g, c)|
    ensures var b := BasesOf(g, c)[i];
      && LaidOut(g, mem, home, b.cls, BaseAt(mem, b, obj))
      && (b.offsetFlags % 2 == 1 ==> b.cls in home && BaseAt(mem, b, obj) == home[b.cls])
  {
    var b := BasesOf(g, c)[i];
    assert IsPath(g, c, []) && FindsBases(g, mem, home, c, obj);
    forall path | IsPath(g, b.cls, path)
      ensures FindsBases(g, mem, home, EndClass(g, b.cls, path), Place(g, home, b.cls, BaseAt(mem, b, obj), path))
    {
      assert ([i] + path)[1..] == path;
      assert IsPath(g, c, [i] + path);
    }
  }

  lemma {:induction false} AddressIsPlace(g: Graph, mem: Memory, home: map<ClassId, int>, c: ClassId, obj: int, path: seq<nat>)
    requires LaidOut(g, mem, home, c, obj) && IsPath(g, c, path)
    ensures Address(g, mem, c, obj, path) == Place(g, home, c, obj, path)
    decreases |path|
  {
    if path != [] {
      var b := BasesOf(g, c)[path[0]];
      LaidOutStep(g, mem, home, c, obj, path[0]);
      AddressIsPlace(g, mem, home, b.cls, BaseAt(mem, b, obj), path[1..]);
    }
  }

  // The base that the last step of a path leads to.
  function LastStep(g: Graph, c: ClassId, path: seq<nat>): Base
    requires IsPath(g, c, path) && path != []
    decreases |path|
  {
    var b := BasesOf(g, c)[path[0]];
    if |path| == 1 then b else LastStep(g, b.cls, path[1..])
  }

  // A path whose last step is to a virtual base leads to its home, and a longer one goes on from there.
  lemma {:induction false} PlaceIsHome(g: Graph, mem: Memory, home: map<ClassId, int>, c: ClassId, obj: int, path: seq<nat>)
    requires LaidOut(g, mem, home, c, obj) && IsPath(g, c, path) && path != [] && LastStep(g, c, path).offsetFlags % 2 == 1
    ensures LastStep(g, c, path).cls == EndClass(g, c, path)
    ensures EndClass(g, c, path) in home && Place(g, home, c, obj, path) == home[EndClass(g, c, path)]
    decreases |path|
  {
    var b := BasesOf(g, c)[path[0]];
    LaidOutStep(g, mem, home, c, obj, path[0]);
    if |path| == 1 {
      assert path[1..] == [];
    } else {
      PlaceIsHome(g, mem, home, b.cls, BaseAt(mem, b, obj), path[1..]);
    }
  }

  lemma {:induction false} PlaceGoesOn(g: Graph, home: map<ClassId, int>, c: ClassId, at: int, path: seq<nat>, k: nat)
    requires IsPath(g, c, path) && k <= |path|
    ensures IsPath(g, c, path[..k]) && IsPath(g, EndClass(g, c, path[..k]), path[k..])
    ensures Place(g, home, c, at, path) == Place(g, home, EndClass(g, c, path[..k]), Place(g, home, c, at, path[..k]), path[k..])
    decreases |path|
  {
    Cut(g, c, path, k);
    if k > 0 {
      var b := BasesOf(g, c)[path[0]];
      var next := if b.offsetFlags % 2 == 1 && b.cls in home then home[b.cls] else at + b.offsetFlags / 0x100;
      assert path[..k][1..] == path[1..][..k - 1];
      assert path[k..] == path[1..][k - 1..];
      PlaceGoesOn(g, home, b.cls, next, path[1..], k - 1);
    } else {
      assert path[..k] == [] && path[k..] == path;
    }
  }

  lemma {:induction false} EndsVirtualStep(g: Graph, c: ClassId, path: seq<nat>)
    requires IsPath(g, c, path) && EndsVirtual(g, c, path)
    ensures LastStep(g, c, path).offsetFlags % 2 == 1
    decreases |path|
  {
    if |path| > 1 {
      EndsVirtualStep(g, BasesOf(g, c)[path[0]].cls, path[1..]);
    }
  }

  // So every virtual base is in one place.
  lemma LaidOutLocated(g: Graph, mem: Memory, home: map<ClassId, int>, c: ClassId, obj: int)
    requires LaidOut(g, mem, home, c, obj)
    ensures Located(g, mem, c, obj)
  {
    forall p | IsPath(g, c, p) && EndsVirtual(g, c, p)
      ensures EndClass(g, c, p) in home && Address(g, mem, c, obj, p) == home[EndClass(g, c, p)]
    {
      EndsVirtualStep(g, c, p);
      PlaceIsHome(g, mem, home, c, obj, p);
      AddressIsPlace(g, mem, home, c, obj, p);
    }
  }

  // In an object that is laid out the upcast leads to the place of the target: along the path that the
  // search takes, and if the target names one subobject, along any path.
  lemma UpcastPlace(g: Graph, mem: Memory, home: map<ClassId, int>, c: ClassId, target: ClassId, obj: int)
    requires Acyclic(g) && c < |g| && LaidOut(g, mem, home, c, obj)
    ensures match Route(g, c, target)
      case None => Upcast(g, mem, c, target, obj) == None
      case Some(path) => IsPath(g, c, path) && Upcast(g, mem, c, target, obj) == Some(Place(g, home, c, obj, path))
    ensures Unique(g, c, target) ==>
      forall path :: Leads(g, c, path, target) ==> Upcast(g, mem, c, target, obj) == Some(Place(g, home, c, obj, path))
  {
    UpcastFound(g, mem, c, target, obj);
    if Route(g, c, target).Some? {
      AddressIsPlace(g, mem, home, c, obj, Route(g, c, target).value);
    }
    LaidOutLocated(g, mem, home, c, obj);
    if Unique(g, c, target) {
      UpcastMeaning(g, mem, c, target, obj);
      forall path | Leads(g, c, path, target) ensures Upcast(g, mem, c, target, obj) == Some(Place(g, home, c, obj, path)) {
        AddressIsPlace(g, mem, home, c, obj, path);
      }
    }
  }

  // An upcast to a virtual base, and past it.
  lemma UpcastToVirtual(g: Graph, mem: Memory, home: map<ClassId, int>, c: ClassId, target: ClassId, obj: int, path: seq<nat>, k: nat)
    requires Acyclic(g) && c < |g| && LaidOut(g, mem, home, c, obj) && Unique(g, c, target)
    requires Leads(g, c, path, target) && 0 < k <= |path| && IsPath(g, c, path[..k]) && LastStep(g, c, path[..k]).offsetFlags % 2 == 1
    ensures var v := EndClass(g, c, path[..k]);
      && v in home && IsPath(g, v, path[k..])
      && Upcast(g, mem, c, target, obj) == Some(Place(g, home, v, home[v], path[k..]))
      && (k == |path| ==> v == target && Upcast(g, mem, c, target, obj) == Some(home[target]))
  {
    UpcastPlace(g, mem, home, c, target, obj);
    PlaceGoesOn(g, home, c, obj, path, k);
    PlaceIsHome(g, mem, home, c, obj, path[..k]);
    if k == |path| {
      assert path[..k] == path && path[k..] == [];
    }
  }

  // Without any condition on the target: the search succeeds exactly when there is a path.
  lemma UpcastReaches(g: Graph, mem: Memory, c: ClassId, target: ClassId, obj: int)
    requires Acyclic(g) && c < |g|
    ensures Upcast(g, mem, c, target, obj).Some? <==> exists path :: Leads(g, c, path, target)
  {
    if path :| Leads(g, c, path, target) {
      UpcastComplete(g, mem, c, target, obj, path);
    }
    if Upcast(g, mem, c, target, obj).Some? {
      UpcastFound(g, mem, c, target, obj);
    }
  }

  // All steps of a path are to public bases.
  predicate PublicPath(g: Graph, c: ClassId, path: seq<nat>)
    requires IsPath(g, c, path)
    decreases |path|
  {
    path == [] || (BasesOf(g, c)[path[0]].IsPublic() && PublicPath(g, BasesOf(g, c)[path[0]].cls, path[1..]))
  }

  ghost predicate Reaches(g: Graph, c: ClassId, target: ClassId) {
    exists path :: Leads(g, c, path, target)
  }

  // The target is an unambiguous public base of the class, or the class itself.
  ghost predicate ProperBase(g: Graph, c: ClassId, target: ClassId) {
    Unique(g, c, target) && exists path :: Leads(g, c, path, target) && PublicPath(g, c, path)
  }

  // Where the target names two subobjects the search does not refuse: it takes the first.
  lemma AmbiguousUpcast(mem: Memory)
    ensures var g := [Plain, Si(0), Si(0), Vmi([Base(1, 0), Base(2, 0x800)])];
      Acyclic(g) && !Unique(g, 3, 0) && Upcast(g, mem, 3, 0, 100) == Some(100) && Address(g, mem, 3, 100, [1, 0]) == 108
  {
    var g := [Plain, Si(0), Si(0), Vmi([Base(1, 0), Base(2, 0x800)])];
    assert Upcast(g, mem, 1, 0, 100) == Upcast(g, mem, 0, 0, 100);
    assert UpcastFrom(g, mem, 3, 0, 0, 100) == Some(100);
    assert [0, 0][1..] == [0] == [1, 0][1..] && [0][1..] == [];
    assert Leads(g, 1, [0], 0) && Leads(g, 2, [0], 0);
    assert Leads(g, 3, [0, 0], 0) && Leads(g, 3, [1, 0], 0);
    assert LastVirtual(g, 1, [0]) == 0 && LastVirtual(g, 2, [0]) == 0;
    assert Named(g, 3, [0, 0]).rest == [0, 0] && Named(g, 3, [1, 0]).rest == [1, 0];
    assert Address(g, mem, 2, 108, [0]) == 108;
  }

  // ----- Null pointers -----

  // How far the steps of a path move the pointer that are not to virtual bases, and how many are.
  function Shift(g: Graph, c: ClassId, path: seq<nat>): int
    requires IsPath(g, c, path)
    decreases |path|
  {
    if path == [] then 0
    else var b := BasesOf(g, c)[path[0]]; (if b.IsVirtual() then 0 else b.Offset()) + Shift(g, b.cls, path[1..])
  }

  function Virtuals(g: Graph, c: ClassId, path: seq<nat>): nat
    requires IsPath(g, c, path)
    decreases |path|
  {
    if path == [] then 0
    else var b := BasesOf(g, c)[path[0]]; (if b.IsVirtual() then 1 else 0) + Virtuals(g, b.cls, path[1..])
  }

  // Where every virtual base is this far away.
  lemma {:induction false} EvenAddress(g: Graph, mem: Memory, c: ClassId, obj: int, path: seq<nat>, far: int)
    requires IsPath(g, c, path) && (Virtuals(g, c, path) == 0 || forall sub, at :: mem.virtualOffset(sub, at) == far)
    ensures Address(g, mem, c, obj, path) == obj + Shift(g, c, path) + far * Virtuals(g, c, path)
    decreases |path|
  {
    if path != [] {
      var b := BasesOf(g, c)[path[0]];
      EvenAddress(g, mem, b.cls, BaseAt(mem, b, obj), path[1..], far);
    }
  }

  // Whatever is in memory, null stays null.
  ghost predicate KeepsNull(g: Graph, c: ClassId, target: ClassId)
    requires Acyclic(g) && c < |g|
  {
    forall mem: Memory :: Upcast(g, mem, c, target, 0) == Some(0)
  }

  // The search does not tell null pointers apart. It leaves them alone exactly if no step of its path
  // is to a virtual base, and the offsets of the steps come to nothing.
  lemma NullUpcast(g: Graph, c: ClassId, target: ClassId)
    requires Acyclic(g) && c < |g| && Route(g, c, target).Some?
    ensures IsPath(g, c, Route(g, c, target).value)
    ensures var path := Route(g, c, target).value; KeepsNull(g, c, target) <==> Virtuals(g, c, path) == 0 && Shift(g, c, path) == 0
  {
    var path := Route(g, c, target).value;
    var here, away := Memory((_, _) => 0, _ => 0, _ => 0), Memory((_, _) => 1, _ => 0, _ => 0);
    UpcastFound(g, here, c, target, 0);
    UpcastFound(g, away, c, target, 0);
    EvenAddress(g, here, c, 0, path, 0);
    EvenAddress(g, away, c, 0, path, 1);
    if Virtuals(g, c, path) == 0 && Shift(g, c, path) == 0 {
      forall mem: Memory ensures Upcast(g, mem, c, target, 0) == Some(0) {
        UpcastFound(g, mem, c, target, 0);
        EvenAddress(g, mem, c, 0, path, 0);
      }
    }
  }

  // ----- cast_to and __dynamic_cast -----

  lemma {:induction false} CastToIsUpcast(g: Graph, mem: Memory, c: ClassId, obj: int, other: ClassId)
    requires Acyclic(g) && c < |g|
    ensures CastTo(g, mem, c, obj, other) == match Upcast(g, mem, c, other, obj) case Some(p) => p case None => 0
    decreases c
  {
    if g[c].Si? {
      assert g[c].base == BasesOf(g, c)[0].cls;
      CastToIsUpcast(g, mem, g[c].base, obj, other);
    }
  }

  // Every subobject with a virtual table points back to the complete object.
  ghost predicate Complete(g: Graph, mem: Memory, c: ClassId, obj: int, polymorphic: set<ClassId>) {
    forall path :: IsPath(g, c, path) && EndClass(g, c, path) in polymorphic ==>
      var sub := Address(g, mem, c, obj, path);
      mem.leafOffset(sub) == obj - sub && mem.leafType(sub) == c
  }

  // From every polymorphic subobject the dynamic cast is the upcast of the complete object.
  lemma DynamicCastMeaning(g: Graph, mem: Memory, c: ClassId, obj: int, polymorphic: set<ClassId>, path: seq<nat>, dst: ClassId)
    requires Acyclic(g) && c < |g| && Complete(g, mem, c, obj, polymorphic)
    requires IsPath(g, c, path) && EndClass(g, c, path) in polymorphic
    ensures var sub := Address(g, mem, c, obj, path);
      && mem.leafType(sub) < |g|
      && DynamicCast(g, mem, sub, dst) == match Upcast(g, mem, c, dst, obj) case Some(p) => p case None => 0
  {
    CastToIsUpcast(g, mem, c, obj, dst);
  }
}
