// What an action chain of an exception table asks for, on decoded records.
module Actions {
  import opened Lists

  type TypeId = nat

  // The entry of a catch-all in a type table.
  const CATCH_ALL: TypeId := 0

  // A thrown exception as the handlers see it: the address of the thrown object, and where each
  // handler type that matches it finds its object.
  datatype Thrown = Thrown(address: int, views: map<TypeId, int>)

  // One action record. A filter is the number stored in the record.
  datatype Action =
    | Catch(filter: int, ty: TypeId)
    | Spec(filter: int, allowed: seq<TypeId>)      // an exception specification
    | Cleanup

  datatype Handler = NoHandler | CleanupHandler | CatchHandler

  datatype Verdict = Verdict(handler: Handler, selector: int, adjusted: int)

  // check_type_signature: the adjusted pointer, if the type matches.
  function Signature(ex: Thrown, ty: TypeId): Option<int> {
    if ty == CATCH_ALL then Some(ex.address)
    else if ty in ex.views then Some(ex.views[ty])
    else None
  }

  // The first type of a list that matches.
  function FirstOf(ex: Thrown, types: seq<TypeId>): Option<int> {
    if types == [] then None
    else if Signature(ex, types[0]).Some? then Signature(ex, types[0])
    else FirstOf(ex, types[1..])
  }

  // A record that ends the search: a catch clause that matches, or a violated specification.
  predicate Stops(ex: Thrown, a: Action) {
    match a
    case Catch(_, ty) => Signature(ex, ty).Some?
    case Spec(_, allowed) => FirstOf(ex, allowed).None?
    case Cleanup => false
  }

  // What a record does to the adjusted pointer, and to the selector, when it is looked at.
  function Adjust(ex: Thrown, a: Action, adjusted: int): int {
    match a
    case Catch(_, ty) => if Signature(ex, ty).Some? then Signature(ex, ty).value else adjusted
    case Spec(_, allowed) => if FirstOf(ex, allowed).Some? then FirstOf(ex, allowed).value else adjusted
    case Cleanup => adjusted
  }

  function Select(a: Action, selector: int): int {
    match a
    case Catch(_, _) => selector
    case Spec(filter, _) => filter
    case Cleanup => 0
  }

  // The walk along a chain from a given record on.
  function Walk(ex: Thrown, chain: seq<Action>, v: Verdict): Verdict {
    if chain == [] then v
    else
      var a := chain[0];
      var adjusted := Adjust(ex, a, v.adjusted);
      if Stops(ex, a) then Verdict(CatchHandler, a.filter, adjusted)
      else Walk(ex, chain[1..], Verdict(if a.Cleanup? then CleanupHandler else v.handler, Select(a, v.selector), adjusted))
  }

  // check_action_record: without a chain there is only a cleanup.
  function Check(ex: Thrown, chain: Option<seq<Action>>, adjusted: int): Verdict {
    match chain
    case None => Verdict(CleanupHandler, 0, adjusted)
    case Some(actions) => Walk(ex, actions, Verdict(NoHandler, 0, adjusted))
  }

  // ----- What a chain asks for, read off its records -----

  // A handler for this type sees the exception, and where: the entry of a catch-all is zero.
  predicate Sees(ex: Thrown, ty: TypeId) {
    ty == 0 || ty in ex.views
  }

  function View(ex: Thrown, ty: TypeId): int
    requires Sees(ex, ty)
  {
    if ty == 0 then ex.address else ex.views[ty]
  }

  // The specification allows the exception.
  predicate Allows(ex: Thrown, a: Action) {
    a.Spec? && exists i :: 0 <= i < |a.allowed| && Sees(ex, a.allowed[i])
  }

  // A catch clause that sees the exception, or a specification that does not allow it.
  predicate Ends(ex: Thrown, a: Action) {
    (a.Catch? && Sees(ex, a.ty)) || (a.Spec? && !Allows(ex, a))
  }

  // The first such record, or the length of the chain.
  function FirstStop(ex: Thrown, chain: seq<Action>): (i: nat)
    ensures i <= |chain|
    ensures forall j :: 0 <= j < i ==> !Ends(ex, chain[j])
    ensures i < |chain| ==> Ends(ex, chain[i])
  {
    if chain == [] || Ends(ex, chain[0]) then 0 else 1 + FirstStop(ex, chain[1..])
  }

  // The last specification that allows the exception, or -1.
  function LastAllowing(ex: Thrown, chain: seq<Action>): (i: int)
    ensures -1 <= i < |chain|
    ensures i >= 0 ==> Allows(ex, chain[i])
    ensures forall j :: i < j < |chain| ==> !Allows(ex, chain[j])
  {
    if chain == [] then -1
    else if Allows(ex, chain[|chain| - 1]) then |chain| - 1
    else LastAllowing(ex, chain[..|chain| - 1])
  }

  // The first type of a specification that sees the exception.
  function FirstSeen(ex: Thrown, types: seq<TypeId>): (i: nat)
    requires exists k :: 0 <= k < |types| && Sees(ex, types[k])
    ensures i < |types| && Sees(ex, types[i])
    ensures forall j :: 0 <= j < i ==> !Sees(ex, types[j])
  {
    if Sees(ex, types[0]) then 0 else 1 + FirstSeen(ex, types[1..])
  }

  // The pointer left by the last specification that allows the exception.
  function LastAllowed(ex: Thrown, chain: seq<Action>, adjusted: int): int {
    var i := LastAllowing(ex, chain);
    if i < 0 then adjusted else View(ex, chain[i].allowed[FirstSeen(ex, chain[i].allowed)])
  }

  // The last record that is not a catch clause, or -1.
  function LastOther(chain: seq<Action>): (i: int)
    ensures -1 <= i < |chain|
    ensures i >= 0 ==> !chain[i].Catch?
    ensures forall j :: i < j < |chain| ==> chain[j].Catch?
  {
    if chain == [] then -1 else if !chain[|chain| - 1].Catch? then |chain| - 1 else LastOther(chain[..|chain| - 1])
  }

  // The filter of that record; a cleanup has filter zero.
  function LastFilter(chain: seq<Action>, selector: int): int {
    var i := LastOther(chain);
    if i < 0 then selector else if chain[i].Spec? then chain[i].filter else 0
  }

  // ----- The walk finds it -----

  lemma {:induction false} FirstOfMeans(ex: Thrown, types: seq<TypeId>)
    ensures FirstOf(ex, types) ==
      if exists k :: 0 <= k < |types| && Sees(ex, types[k]) then Some(View(ex, types[FirstSeen(ex, types)])) else None
  {
    if types != [] && !Sees(ex, types[0]) {
      FirstOfMeans(ex, types[1..]);
      if k :| 0 <= k < |types| && Sees(ex, types[k]) {
        assert types[1..][k - 1] == types[k];
      }
    }
  }

  lemma StopsMeans(ex: Thrown, a: Action)
    ensures Stops(ex, a) <==> Ends(ex, a)
  {
    if a.Spec? {
      FirstOfMeans(ex, a.allowed);
    }
  }

  // A catch-all ends the walk for every exception, and a specification that allows everything for none.
  lemma SeesAll(ex: Thrown, a: Action)
    ensures a.Catch? && a.ty == 0 ==> Stops(ex, a)
    ensures a.Spec? && 0 in a.allowed ==> !Stops(ex, a)
  {
    StopsMeans(ex, a);
  }

  lemma LastAllowedCons(ex: Thrown, a: Action, rest: seq<Action>, adjusted: int)
    requires !Ends(ex, a)
    ensures LastAllowed(ex, [a] + rest, adjusted) == LastAllowed(ex, rest, Adjust(ex, a, adjusted))
  {
    var chain := [a] + rest;
    var i, k := LastAllowing(ex, chain), LastAllowing(ex, rest);
    assert forall j :: 0 < j < |chain| ==> chain[j] == rest[j - 1];
    if k >= 0 {
      assert chain[k + 1] == rest[k];
      assert i == k + 1;
    } else {
      assert i <= 0;
      if a.Spec? {
        FirstOfMeans(ex, a.allowed);
        assert Allows(ex, chain[0]) && i == 0;
      } else {
        assert !Allows(ex, chain[0]);
      }
    }
  }

  lemma LastFilterCons(a: Action, rest: seq<Action>, selector: int)
    ensures LastFilter([a] + rest, selector) == LastFilter(rest, Select(a, selector))
  {
    var chain := [a] + rest;
    var i, k := LastOther(chain), LastOther(rest);
    assert forall j :: 0 < j < |chain| ==> chain[j] == rest[j - 1];
    if k >= 0 {
      assert chain[k + 1] == rest[k];
      assert i == k + 1;
    } else {
      assert i <= 0 && chain[0] == a;
    }
  }

  // The first record that ends the search gives a catch with its filter as the selector; if there
  // is none, a zero filter anywhere gives a cleanup, and otherwise there is nothing here; the selector
  // is then the filter of the last record that is not a catch clause.
  lemma {:induction false} WalkMeaning(ex: Thrown, chain: seq<Action>, v: Verdict)
    requires !v.handler.CatchHandler?
    ensures var i := FirstStop(ex, chain);
      var r := Walk(ex, chain, v);
      if i < |chain| then
        && r.handler == CatchHandler
        && r.selector == chain[i].filter
        && r.adjusted == (if chain[i].Catch? then View(ex, chain[i].ty) else LastAllowed(ex, chain[..i], v.adjusted))
      else
        && r.handler == (if Cleanup in chain then CleanupHandler else v.handler)
        && r.selector == LastFilter(chain, v.selector)
        && r.adjusted == LastAllowed(ex, chain, v.adjusted)
  {
    if chain != [] {
      var a, rest := chain[0], chain[1..];
      StopsMeans(ex, a);
      assert [a] + rest == chain;
      if !Ends(ex, a) {
        var i := FirstStop(ex, rest);
        WalkMeaning(ex, rest, Verdict(if a.Cleanup? then CleanupHandler else v.handler, Select(a, v.selector), Adjust(ex, a, v.adjusted)));
        LastFilterCons(a, rest, v.selector);
        LastAllowedCons(ex, a, rest, v.adjusted);
        LastAllowedCons(ex, a, rest[..i], v.adjusted);
        assert chain[..i + 1] == [a] + rest[..i];
        assert Cleanup in chain <==> a == Cleanup || Cleanup in rest;
      } else if a.Spec? {
        FirstOfMeans(ex, a.allowed);
      }
    }
  }
}
