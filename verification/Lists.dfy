// Small shared vocabulary: optional values and cons lists.
module Lists {

  datatype Option<+T> = None | Some(value: T)

  datatype List<T> = Nil | Cons(head: T, tail: List<T>)

  function Length<T>(l: List<T>): nat {
    match l
    case Nil => 0
    case Cons(_, rest) => 1 + Length(rest)
  }

  function Elements<T>(l: List<T>): set<T> {
    match l
    case Nil => {}
    case Cons(x, rest) => {x} + Elements(rest)
  }

  function Nth<T>(l: List<T>, i: nat): T
    requires i < Length(l)
  {
    if i == 0 then l.head else Nth(l.tail, i - 1)
  }

  // The elements of s from pos on start with t.
  ghost predicate StandsAt<T>(s: seq<T>, pos: nat, t: seq<T>) {
    pos + |t| <= |s| && forall k :: 0 <= k < |t| ==> s[pos + k] == t[k]
  }

  lemma StandsCons<T>(s: seq<T>, pos: nat, x: T, t: seq<T>)
    requires StandsAt(s, pos, [x] + t)
    ensures pos < |s| && s[pos] == x && StandsAt(s, pos + 1, t)
  {
    var u := [x] + t;
    assert u[0] == x;
    assert forall k :: 0 <= k < |t| ==> t[k] == u[k + 1];
  }

  lemma StandsSplit<T>(s: seq<T>, pos: nat, t: seq<T>, u: seq<T>)
    requires StandsAt(s, pos, t + u)
    ensures StandsAt(s, pos, t) && StandsAt(s, pos + |t|, u)
  {
    assert forall k :: 0 <= k < |t| ==> t[k] == (t + u)[k];
    assert forall k :: 0 <= k < |u| ==> u[k] == (t + u)[|t| + k];
  }
}
