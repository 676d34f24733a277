// Reference counting seen from outside the threads: who is throwing what, who is about to release
// what, and which exception_ptr variables point where.
module Ledger {
  import opened Lists
  import opened Abi
  import opened Machine

  datatype Account = Account(kind: Kind, count: int)

  datatype Book = Book(
    accounts: map<Id, Account>,
    active: map<Tid, set<Id>>,          // the throws that a thread has not finished
    pending: map<Tid, Pending>,
    ptrs: map<Handle, Id>,
    births: seq<Birth>,
    destroyed: seq<Id>)

  datatype Token =
    | InThrow(t: Tid, x: Id)            // thread t has not finished with its throw of x
    | InPtr(h: Handle)
    | InRelease(t: Tid)                 // thread t is about to decrement

  function Base(b: Book, x: Id): Id
    requires x in b.accounts
  {
    if b.accounts[x].kind.Primary? then x else b.accounts[x].kind.primary
  }

  predicate IsPrimary(b: Book, p: Id) {
    p in b.accounts && b.accounts[p].kind.Primary?
  }

  predicate Grounded(b: Book, x: Id) {
    x in b.accounts && IsPrimary(b, Base(b, x))
  }

  // Thread t has not finished with its throw of x.
  predicate Throws(b: Book, t: Tid, x: Id) {
    t in b.active && x in b.active[t]
  }

  predicate InThrowOf(b: Book, t: Tid, x: Id, p: Id) {
    Throws(b, t, x) && x in b.accounts && Base(b, x) == p
  }

  predicate Releases(b: Book, t: Tid, p: Id) {
    t in b.pending && b.pending[t].Dec? && b.pending[t].p == p
  }

  predicate Destroys(b: Book, t: Tid, p: Id) {
    t in b.pending && b.pending[t].Free? && b.pending[t].p == p
  }

  // Who holds a reference to the primary exception p.
  function Holders(b: Book, p: Id): set<Token> {
    (set t, x | t in b.active && x in b.active[t] && InThrowOf(b, t, x, p) :: InThrow(t, x))
    + (set h | h in b.ptrs && b.ptrs[h] == p :: InPtr(h))
    + (set t | t in b.pending && Releases(b, t, p) :: InRelease(t))
  }

  // The dependent exception that a thread is in the course of freeing.
  predicate Frees(b: Book, t: Tid, d: Id) {
    t in b.pending && match b.pending[t]
      case Idle => false
      case Dec(_, dep) => dep == Some(d)
      case Free(_, dep) => dep == Some(d)
      case Drop(x) => x == d
  }

  predicate Owns(b: Book, t: Tid, x: Id) {
    Throws(b, t, x) || Frees(b, t, x)
  }

  // ----- What always holds -----

  // A header that is thrown or being freed belongs to the thread that made it, and is not both.
  ghost predicate Apart(b: Book) {
    && (forall t, x: Id :: Owns(b, t, x) ==> x < |b.births| && b.births[x].thread == t)
    && (forall t, x :: Frees(b, t, x) ==> !Throws(b, t, x))
  }

  ghost predicate ReferentsOk(b: Book) {
    && (forall t, x :: Throws(b, t, x) ==> Grounded(b, x))
    && (forall h :: h in b.ptrs ==> IsPrimary(b, b.ptrs[h]))
    && (forall t, p :: Releases(b, t, p) ==> IsPrimary(b, p))
    && (forall t, p :: Destroys(b, t, p) ==> IsPrimary(b, p) && b.accounts[p].count == 0)
    && (forall t, d :: Frees(b, t, d) ==> d in b.accounts && b.accounts[d].kind.Dependent?)
  }

  ghost predicate SomeoneOwns(b: Book, d: Id) {
    exists t :: Owns(b, t, d)
  }

  ghost predicate SomeoneDestroys(b: Book, p: Id) {
    exists t :: Destroys(b, t, p)
  }

  ghost predicate NoneLost(b: Book) {
    && (forall d {:trigger SomeoneOwns(b, d)} :: d in b.accounts && b.accounts[d].kind.Dependent? ==> SomeoneOwns(b, d))
    && (forall p {:trigger SomeoneDestroys(b, p)} :: IsPrimary(b, p) && b.accounts[p].count == 0 ==> SomeoneDestroys(b, p))
  }

  ghost predicate OneDestroyer(b: Book) {
    forall t, u, p :: Destroys(b, t, p) && Destroys(b, u, p) ==> t == u
  }

  ghost predicate CountsOk(b: Book) {
    forall p :: IsPrimary(b, p) ==> b.accounts[p].count == |Holders(b, p)|
  }

  ghost predicate BirthsOk(b: Book) {
    && (forall e :: e in b.accounts ==> e < |b.births| && (b.births[e].primary <==> b.accounts[e].kind.Primary?))
    && (forall i, j :: 0 <= i < j < |b.destroyed| ==> b.destroyed[i] != b.destroyed[j])
    && (forall e: Id :: e in b.destroyed <==> e < |b.births| && b.births[e].primary && e !in b.accounts)
  }

  ghost predicate Shape(b: Book) {
    b.active.Keys == b.pending.Keys && Apart(b) && ReferentsOk(b) && NoneLost(b) && OneDestroyer(b) && BirthsOk(b)
  }

  ghost predicate Balanced(b: Book) {
    Shape(b) && CountsOk(b)
  }

  // ----- Entries -----

  predicate Ready(b: Book, t: Tid) {
    t in b.active && t in b.pending && b.pending[t].Idle?
  }

  function Throw(b: Book, t: Tid, ty: nat): Book
    requires Ready(b, t)
  {
    var e := |b.births|;
    b.(accounts := b.accounts[e := Account(Primary(ty), 1)],
       active := b.active[t := b.active[t] + {e}],
       births := b.births + [Birth(t, true)])
  }

  function Add(b: Book, p: Id, delta: int): Book
    requires p in b.accounts
  {
    b.(accounts := b.accounts[p := b.accounts[p].(count := b.accounts[p].count + delta)])
  }

  function ThrowDependent(b: Book, t: Tid, p: Id): Book
    requires Ready(b, t) && p in b.accounts
  {
    var d := |b.births|;
    var b' := Add(b, p, 1);
    b'.(accounts := b'.accounts[d := Account(Dependent(p), 0)],
        active := b.active[t := b.active[t] + {d}],
        births := b.births + [Birth(t, false)])
  }

  function Finish(b: Book, t: Tid, e: Id): Book
    requires Ready(b, t) && e in b.accounts
  {
    var dep := if b.accounts[e].kind.Primary? then None else Some(e);
    b.(active := b.active[t := b.active[t] - {e}],
       pending := b.pending[t := Dec(Base(b, e), dep)])
  }

  // An exception_ptr variable lets go of what it points to.
  function Unpoint(b: Book, t: Tid, h: Handle): Book
    requires Ready(b, t) && h in b.ptrs
  {
    b.(ptrs := b.ptrs - {h}, pending := b.pending[t := Dec(b.ptrs[h], None)])
  }

  // A null exception_ptr variable starts to point to p.
  function Point(b: Book, h: Handle, p: Id): Book
    requires p in b.accounts
  {
    Add(b, p, 1).(ptrs := b.ptrs[h := p])
  }

  // A null exception_ptr variable starts to point to a new exception that nobody has thrown.
  function Create(b: Book, t: Tid, h: Handle, ty: nat): Book {
    var e := |b.births|;
    b.(accounts := b.accounts[e := Account(Primary(ty), 1)],
       births := b.births + [Birth(t, true)],
       ptrs := b.ptrs[h := e])
  }

  // Assigns to an exception_ptr variable; the value it held is released afterwards.
  function Assign(b: Book, t: Tid, h: Handle, value: Option<Id>): Book
    requires Ready(b, t) && (value.Some? ==> value.value in b.accounts)
  {
    var b' := if h in b.ptrs then Unpoint(b, t, h) else b;
    if value.Some? then Point(b', h, value.value) else b'
  }

  function Make(b: Book, t: Tid, h: Handle, ty: nat): Book
    requires Ready(b, t)
  {
    Create(if h in b.ptrs then Unpoint(b, t, h) else b, t, h, ty)
  }

  function Decrement(b: Book, t: Tid): Book
    requires t in b.pending && b.pending[t].Dec? && b.pending[t].p in b.accounts
  {
    var p := b.pending[t].p;
    var dep := b.pending[t].dep;
    var b' := Add(b, p, -1);
    b'.(pending := b.pending[t := if b'.accounts[p].count == 0 then Free(p, dep) else AfterPrimary(dep)])
  }

  function Destroy(b: Book, t: Tid): Book
    requires t in b.pending && b.pending[t].Free?
  {
    var p := b.pending[t].p;
    b.(accounts := b.accounts - {p}, destroyed := b.destroyed + [p],
       pending := b.pending[t := AfterPrimary(b.pending[t].dep)])
  }

  function Discard(b: Book, t: Tid): Book
    requires t in b.pending && b.pending[t].Drop?
  {
    b.(accounts := b.accounts - {b.pending[t].d}, pending := b.pending[t := Idle])
  }

  // ----- Holders -----

  predicate Holds(b: Book, k: Token, p: Id) {
    match k
    case InThrow(t, x) => InThrowOf(b, t, x, p)
    case InPtr(h) => h in b.ptrs && b.ptrs[h] == p
    case InRelease(t) => Releases(b, t, p)
  }

  lemma HoldersAre(b: Book, p: Id)
    ensures forall k :: k in Holders(b, p) <==> Holds(b, k, p)
  {
  }

  // When the holders change by the given tokens, their number changes accordingly.
  lemma Recount(b: Book, b': Book, p: Id, gone: set<Token>, come: set<Token>)
    requires forall k :: Holds(b', k, p) <==> (Holds(b, k, p) && k !in gone) || k in come
    requires forall k :: k in gone ==> Holds(b, k, p)
    requires forall k :: k in come ==> !Holds(b, k, p)
    ensures |Holders(b', p)| == |Holders(b, p)| - |gone| + |come|
  {
    HoldersAre(b, p);
    HoldersAre(b', p);
    assert Holders(b', p) == (Holders(b, p) - gone) + come;
    assert (Holders(b, p) - gone) + gone == Holders(b, p);
  }

  // The balance of p: its count if it is in the book, and nothing otherwise.
  function CountOf(b: Book, p: Id): int {
    if IsPrimary(b, p) then b.accounts[p].count else 0
  }

  // An entry that concerns the holders of one exception only, and counts them correctly.
  lemma OneAccount(b: Book, b': Book, p: Id, gone: set<Token>, come: set<Token>)
    requires CountsOk(b)
    requires IsPrimary(b, p) || forall k :: !Holds(b, k, p)
    requires forall k, q :: Holds(b', k, q) <==> (Holds(b, k, q) && !(q == p && k in gone)) || (q == p && k in come)
    requires forall k :: k in gone ==> Holds(b, k, p)
    requires forall k :: k in come ==> !Holds(b, k, p)
    requires forall q :: IsPrimary(b', q) && q != p ==> IsPrimary(b, q) && CountOf(b', q) == CountOf(b, q)
    requires IsPrimary(b', p) ==> CountOf(b', p) == CountOf(b, p) - |gone| + |come|
    ensures CountsOk(b')
  {
    forall q | IsPrimary(b', q) ensures b'.accounts[q].count == |Holders(b', q)| {
      if q == p {
        ThisAccount(b, b', p, gone, come);
      } else {
        Recount(b, b', q, {}, {});
      }
    }
  }

  lemma ThisAccount(b: Book, b': Book, p: Id, gone: set<Token>, come: set<Token>)
    requires if IsPrimary(b, p) then CountOf(b, p) == |Holders(b, p)| else forall k :: !Holds(b, k, p)
    requires forall k :: Holds(b', k, p) <==> (Holds(b, k, p) && k !in gone) || k in come
    requires forall k :: k in gone ==> Holds(b, k, p)
    requires forall k :: k in come ==> !Holds(b, k, p)
    requires IsPrimary(b', p) && CountOf(b', p) == CountOf(b, p) - |gone| + |come|
    ensures b'.accounts[p].count == |Holders(b', p)|
  {
    Recount(b, b', p, gone, come);
    if !IsPrimary(b, p) {
      HoldersAre(b, p);
      assert Holders(b, p) == {};
    }
  }

  // A holder keeps the count above zero.
  lemma Held(b: Book, p: Id, k: Token)
    requires CountsOk(b) && IsPrimary(b, p) && Holds(b, k, p)
    ensures b.accounts[p].count > 0
  {
    HoldersAre(b, p);
    assert k in Holders(b, p);
  }

  // At zero there is no holder.
  lemma Unheld(b: Book, p: Id)
    requires CountsOk(b) && IsPrimary(b, p) && b.accounts[p].count == 0
    ensures forall k :: !Holds(b, k, p)
  {
    HoldersAre(b, p);
    assert Holders(b, p) == {};
  }

  // A number that no header bears belongs to nobody.
  lemma Unknown(b: Book, e: Id)
    requires ReferentsOk(b) && e !in b.accounts
    ensures forall t :: !Owns(b, t, e)
    ensures forall k :: !Holds(b, k, e)
  {
    assert !Grounded(b, e);
    forall k ensures !Holds(b, k, e) {
      match k
      case InThrow(t, x) => assert InThrowOf(b, t, x, e) ==> Grounded(b, x);
      case InPtr(h) =>
      case InRelease(t) =>
    }
  }

  // Nothing is lost when owners and destroyers stay, and what is new has one.
  lemma StillFound(b: Book, b': Book)
    requires NoneLost(b)
    requires forall u, x :: Owns(b, u, x) && x in b'.accounts && b'.accounts[x].kind.Dependent? ==> Owns(b', u, x)
    requires forall u, p :: Destroys(b, u, p) && p in b'.accounts ==> Destroys(b', u, p)
    requires forall d :: d in b'.accounts && b'.accounts[d].kind.Dependent? ==>
      (d in b.accounts && b.accounts[d].kind.Dependent?) || SomeoneOwns(b', d)
    requires forall p :: IsPrimary(b', p) && b'.accounts[p].count == 0 ==>
      (IsPrimary(b, p) && b.accounts[p].count == 0) || SomeoneDestroys(b', p)
    ensures NoneLost(b')
  {
    forall d | d in b'.accounts && b'.accounts[d].kind.Dependent? ensures SomeoneOwns(b', d) {
      assert d in b.accounts && b.accounts[d].kind.Dependent? ==> SomeoneOwns(b, d);
    }
    forall p | IsPrimary(b', p) && b'.accounts[p].count == 0 ensures SomeoneDestroys(b', p) {
      assert IsPrimary(b, p) && b.accounts[p].count == 0 ==> SomeoneDestroys(b, p);
    }
  }

  // ----- Every entry keeps the book balanced -----

  // Throw

  lemma ThrowViews(b: Book, t: Tid, ty: nat, b': Book)
    requires Ready(b, t) && b' == Throw(b, t, ty)
    ensures forall u, x :: Throws(b', u, x) <==> Throws(b, u, x) || (u == t && x == |b.births|)
    ensures forall u, x :: Owns(b', u, x) <==> Owns(b, u, x) || (u == t && x == |b.births|)
    ensures forall u, p :: Releases(b', u, p) <==> Releases(b, u, p)
    ensures forall u, p :: Destroys(b', u, p) <==> Destroys(b, u, p)
    ensures forall u, d :: Frees(b', u, d) <==> Frees(b, u, d)
  {
  }

  lemma ThrowHolds(b: Book, t: Tid, ty: nat, b': Book)
    requires ReferentsOk(b) && BirthsOk(b) && Ready(b, t) && b' == Throw(b, t, ty)
    ensures forall k, p :: Holds(b', k, p) <==> Holds(b, k, p) || (p == |b.births| && k == InThrow(t, p))
  {
    Unknown(b, |b.births|);
    forall k, p ensures Holds(b', k, p) <==> Holds(b, k, p) || (p == |b.births| && k == InThrow(t, p)) {
      match k
      case InThrow(u, x) => assert Throws(b, u, x) ==> Owns(b, u, x);
      case InPtr(h) =>
      case InRelease(u) =>
    }
  }

  lemma ThrowOwners(b: Book, t: Tid, ty: nat, b': Book)
    requires Shape(b) && Ready(b, t) && b' == Throw(b, t, ty)
    ensures Apart(b') && NoneLost(b') && OneDestroyer(b')
  {
    ThrowViews(b, t, ty, b');
    Unknown(b, |b.births|);
    StillFound(b, b');
  }

  lemma ThrowReferents(b: Book, t: Tid, ty: nat, b': Book)
    requires BirthsOk(b) && ReferentsOk(b) && Ready(b, t) && b' == Throw(b, t, ty)
    ensures ReferentsOk(b') && BirthsOk(b')
  {
    ThrowViews(b, t, ty, b');
    forall x | Grounded(b, x) ensures Grounded(b', x) {}
  }

  lemma ThrowBalanced(b: Book, t: Tid, ty: nat)
    requires Balanced(b) && Ready(b, t)
    ensures Balanced(Throw(b, t, ty))
  {
    var b' := Throw(b, t, ty);
    var e := |b.births|;
    ThrowOwners(b, t, ty, b');
    ThrowReferents(b, t, ty, b');
    ThrowHolds(b, t, ty, b');
    Unknown(b, e);
    OneAccount(b, b', e, {}, {InThrow(t, e)});
  }

  // ThrowDependent

  lemma ThrowDependentViews(b: Book, t: Tid, p: Id, b': Book)
    requires Ready(b, t) && p in b.accounts && b' == ThrowDependent(b, t, p)
    ensures forall u, x :: Throws(b', u, x) <==> Throws(b, u, x) || (u == t && x == |b.births|)
    ensures forall u, x :: Owns(b', u, x) <==> Owns(b, u, x) || (u == t && x == |b.births|)
    ensures forall u, q :: Releases(b', u, q) <==> Releases(b, u, q)
    ensures forall u, q :: Destroys(b', u, q) <==> Destroys(b, u, q)
    ensures forall u, d :: Frees(b', u, d) <==> Frees(b, u, d)
  {
  }

  lemma ThrowDependentHolds(b: Book, t: Tid, p: Id, b': Book)
    requires ReferentsOk(b) && BirthsOk(b) && Ready(b, t) && IsPrimary(b, p) && b' == ThrowDependent(b, t, p)
    ensures forall k, q :: Holds(b', k, q) <==> Holds(b, k, q) || (q == p && k == InThrow(t, |b.births|))
    ensures !Holds(b, InThrow(t, |b.births|), p)
  {
    Unknown(b, |b.births|);
    assert !Owns(b, t, |b.births|);
    forall k, q ensures Holds(b', k, q) <==> Holds(b, k, q) || (q == p && k == InThrow(t, |b.births|)) {
      match k
      case InThrow(u, x) => assert Throws(b, u, x) ==> Owns(b, u, x);
      case InPtr(h) =>
      case InRelease(u) =>
    }
  }

  lemma ThrowDependentOwners(b: Book, t: Tid, p: Id, b': Book)
    requires Shape(b) && Ready(b, t) && IsPrimary(b, p) && b.accounts[p].count > 0 && b' == ThrowDependent(b, t, p)
    ensures Apart(b') && NoneLost(b') && OneDestroyer(b')
  {
    ThrowDependentViews(b, t, p, b');
    Unknown(b, |b.births|);
    assert Owns(b', t, |b.births|);
    StillFound(b, b');
  }

  lemma ThrowDependentReferents(b: Book, t: Tid, p: Id, b': Book)
    requires BirthsOk(b) && ReferentsOk(b) && Ready(b, t) && IsPrimary(b, p) && b.accounts[p].count > 0
    requires b' == ThrowDependent(b, t, p)
    ensures ReferentsOk(b') && BirthsOk(b')
  {
    ThrowDependentViews(b, t, p, b');
    forall x | Grounded(b, x) ensures Grounded(b', x) {}
  }

  lemma ThrowDependentCounts(b: Book, t: Tid, p: Id, b': Book)
    requires ReferentsOk(b) && BirthsOk(b) && CountsOk(b)
    requires Ready(b, t) && IsPrimary(b, p) && b' == ThrowDependent(b, t, p)
    ensures CountsOk(b')
  {
    ThrowDependentHolds(b, t, p, b');
    OneAccount(b, b', p, {}, {InThrow(t, |b.births|)});
  }

  lemma ThrowDependentBalanced(b: Book, t: Tid, p: Id)
    requires Balanced(b) && Ready(b, t) && IsPrimary(b, p) && b.accounts[p].count > 0
    ensures Balanced(ThrowDependent(b, t, p))
  {
    var b' := ThrowDependent(b, t, p);
    ThrowDependentOwners(b, t, p, b');
    ThrowDependentReferents(b, t, p, b');
    ThrowDependentCounts(b, t, p, b');
  }

  // Finish

  lemma FinishViews(b: Book, t: Tid, e: Id, b': Book)
    requires Ready(b, t) && Throws(b, t, e) && e in b.accounts && b' == Finish(b, t, e)
    ensures forall u, x :: Throws(b', u, x) <==> Throws(b, u, x) && !(u == t && x == e)
    ensures forall u, q :: Releases(b', u, q) <==> Releases(b, u, q) || (u == t && q == Base(b, e))
    ensures forall u, q :: Destroys(b', u, q) <==> Destroys(b, u, q)
    ensures forall u, d :: Frees(b', u, d) <==> Frees(b, u, d) || (u == t && d == e && b.accounts[e].kind.Dependent?)
    ensures forall u, x :: Owns(b', u, x) <==> Owns(b, u, x) && !(u == t && x == e && !b.accounts[e].kind.Dependent?)
  {
  }

  lemma FinishHolds(b: Book, t: Tid, e: Id, b': Book)
    requires Ready(b, t) && Throws(b, t, e) && e in b.accounts && b' == Finish(b, t, e)
    ensures forall k, q :: Holds(b', k, q) <==> (Holds(b, k, q) && k != InThrow(t, e)) || (q == Base(b, e) && k == InRelease(t))
  {
    forall k, q ensures Holds(b', k, q) <==> (Holds(b, k, q) && k != InThrow(t, e)) || (q == Base(b, e) && k == InRelease(t)) {
      match k
      case InThrow(u, x) =>
      case InPtr(h) =>
      case InRelease(u) =>
    }
  }

  lemma FinishShape(b: Book, t: Tid, e: Id, b': Book)
    requires Shape(b) && Ready(b, t) && Throws(b, t, e) && e in b.accounts && b' == Finish(b, t, e)
    ensures Shape(b')
  {
    FinishViews(b, t, e, b');
    assert Owns(b, t, e);
    assert Grounded(b, e);
    forall x | Grounded(b, x) ensures Grounded(b', x) {}
    StillFound(b, b');
  }

  lemma FinishCounts(b: Book, t: Tid, e: Id, b': Book)
    requires CountsOk(b) && Ready(b, t) && Throws(b, t, e) && Grounded(b, e) && b' == Finish(b, t, e)
    ensures CountsOk(b')
  {
    FinishHolds(b, t, e, b');
    OneAccount(b, b', Base(b, e), {InThrow(t, e)}, {InRelease(t)});
  }

  lemma FinishBalanced(b: Book, t: Tid, e: Id)
    requires Balanced(b) && Ready(b, t) && Throws(b, t, e)
    ensures e in b.accounts && Balanced(Finish(b, t, e))
  {
    assert Grounded(b, e);
    FinishShape(b, t, e, Finish(b, t, e));
    FinishCounts(b, t, e, Finish(b, t, e));
  }

  // Unpoint

  lemma UnpointHolds(b: Book, t: Tid, h: Handle, b': Book)
    requires Ready(b, t) && h in b.ptrs && b' == Unpoint(b, t, h)
    ensures forall k, q :: Holds(b', k, q) <==> (Holds(b, k, q) && k != InPtr(h)) || (q == b.ptrs[h] && k == InRelease(t))
  {
    forall k, q ensures Holds(b', k, q) <==> (Holds(b, k, q) && k != InPtr(h)) || (q == b.ptrs[h] && k == InRelease(t)) {
      match k
      case InThrow(u, x) =>
      case InPtr(g) =>
      case InRelease(u) =>
    }
  }

  lemma UnpointShape(b: Book, t: Tid, h: Handle, b': Book)
    requires Shape(b) && Ready(b, t) && h in b.ptrs && b' == Unpoint(b, t, h)
    ensures Shape(b')
  {
    assert forall u, x :: Throws(b', u, x) <==> Throws(b, u, x);
    assert forall u, d :: Frees(b', u, d) <==> Frees(b, u, d);
    assert forall u, x :: Owns(b', u, x) <==> Owns(b, u, x);
    assert forall u, q :: Destroys(b', u, q) <==> Destroys(b, u, q);
    assert forall u, q :: Releases(b', u, q) <==> Releases(b, u, q) || (u == t && q == b.ptrs[h]);
    forall x | Grounded(b, x) ensures Grounded(b', x) {}
    StillFound(b, b');
  }

  lemma UnpointCounts(b: Book, t: Tid, h: Handle, b': Book)
    requires CountsOk(b) && Ready(b, t) && h in b.ptrs && IsPrimary(b, b.ptrs[h]) && b' == Unpoint(b, t, h)
    ensures CountsOk(b')
  {
    UnpointHolds(b, t, h, b');
    OneAccount(b, b', b.ptrs[h], {InPtr(h)}, {InRelease(t)});
  }

  lemma UnpointBalanced(b: Book, t: Tid, h: Handle)
    requires Balanced(b) && Ready(b, t) && h in b.ptrs
    ensures Balanced(Unpoint(b, t, h))
  {
    UnpointShape(b, t, h, Unpoint(b, t, h));
    UnpointCounts(b, t, h, Unpoint(b, t, h));
  }

  // Point

  lemma PointViews(b: Book, h: Handle, p: Id, b': Book)
    requires p in b.accounts && b' == Point(b, h, p)
    ensures forall u, x :: Throws(b', u, x) <==> Throws(b, u, x)
    ensures forall u, d :: Frees(b', u, d) <==> Frees(b, u, d)
    ensures forall u, x :: Owns(b', u, x) <==> Owns(b, u, x)
    ensures forall u, q :: Destroys(b', u, q) <==> Destroys(b, u, q)
    ensures forall u, q :: Releases(b', u, q) <==> Releases(b, u, q)
  {
  }

  lemma PointOwners(b: Book, h: Handle, p: Id, b': Book)
    requires Shape(b) && IsPrimary(b, p) && b.accounts[p].count > 0 && b' == Point(b, h, p)
    ensures Apart(b') && NoneLost(b') && OneDestroyer(b')
  {
    PointViews(b, h, p, b');
    StillFound(b, b');
  }

  lemma PointReferents(b: Book, h: Handle, p: Id, b': Book)
    requires ReferentsOk(b) && BirthsOk(b) && IsPrimary(b, p) && b.accounts[p].count > 0 && b' == Point(b, h, p)
    ensures ReferentsOk(b') && BirthsOk(b')
  {
    PointViews(b, h, p, b');
    forall x | Grounded(b, x) ensures Grounded(b', x) {}
  }

  lemma PointHolds(b: Book, h: Handle, p: Id, b': Book)
    requires IsPrimary(b, p) && h !in b.ptrs && b' == Point(b, h, p)
    ensures forall k, q :: Holds(b', k, q) <==> Holds(b, k, q) || (q == p && k == InPtr(h))
  {
    forall k, q ensures Holds(b', k, q) <==> Holds(b, k, q) || (q == p && k == InPtr(h)) {
      match k
      case InThrow(u, x) =>
      case InPtr(g) =>
      case InRelease(u) =>
    }
  }

  lemma PointCounts(b: Book, h: Handle, p: Id, b': Book)
    requires CountsOk(b) && IsPrimary(b, p) && h !in b.ptrs && b' == Point(b, h, p)
    ensures CountsOk(b')
  {
    PointHolds(b, h, p, b');
    OneAccount(b, b', p, {}, {InPtr(h)});
  }

  lemma PointBalanced(b: Book, h: Handle, p: Id)
    requires Balanced(b) && IsPrimary(b, p) && b.accounts[p].count > 0 && h !in b.ptrs
    ensures Balanced(Point(b, h, p))
  {
    PointOwners(b, h, p, Point(b, h, p));
    PointReferents(b, h, p, Point(b, h, p));
    PointCounts(b, h, p, Point(b, h, p));
  }

  // Create

  lemma CreateOwners(b: Book, t: Tid, h: Handle, ty: nat, b': Book)
    requires Shape(b) && b' == Create(b, t, h, ty)
    ensures Apart(b') && NoneLost(b') && OneDestroyer(b')
  {
    assert forall u, x :: Throws(b', u, x) <==> Throws(b, u, x);
    assert forall u, d :: Frees(b', u, d) <==> Frees(b, u, d);
    assert forall u, x :: Owns(b', u, x) <==> Owns(b, u, x);
    assert forall u, q :: Destroys(b', u, q) <==> Destroys(b, u, q);
    StillFound(b, b');
  }

  lemma CreateReferents(b: Book, t: Tid, h: Handle, ty: nat, b': Book)
    requires ReferentsOk(b) && BirthsOk(b) && b' == Create(b, t, h, ty)
    ensures ReferentsOk(b') && BirthsOk(b')
  {
    assert forall u, x :: Throws(b', u, x) <==> Throws(b, u, x);
    assert forall u, d :: Frees(b', u, d) <==> Frees(b, u, d);
    assert forall u, q :: Destroys(b', u, q) <==> Destroys(b, u, q);
    assert forall u, q :: Releases(b', u, q) <==> Releases(b, u, q);
    forall x | Grounded(b, x) ensures Grounded(b', x) {}
  }

  lemma CreateHolds(b: Book, t: Tid, h: Handle, ty: nat, b': Book)
    requires ReferentsOk(b) && BirthsOk(b) && h !in b.ptrs && b' == Create(b, t, h, ty)
    ensures forall k, q :: Holds(b', k, q) <==> Holds(b, k, q) || (q == |b.births| && k == InPtr(h))
  {
    Unknown(b, |b.births|);
    forall k, q ensures Holds(b', k, q) <==> Holds(b, k, q) || (q == |b.births| && k == InPtr(h)) {
      match k
      case InThrow(u, x) => assert Throws(b, u, x) ==> Owns(b, u, x);
      case InPtr(g) =>
      case InRelease(u) =>
    }
  }

  lemma CreateCounts(b: Book, t: Tid, h: Handle, ty: nat, b': Book)
    requires ReferentsOk(b) && BirthsOk(b) && CountsOk(b) && h !in b.ptrs && b' == Create(b, t, h, ty)
    ensures CountsOk(b')
  {
    CreateHolds(b, t, h, ty, b');
    Unknown(b, |b.births|);
    OneAccount(b, b', |b.births|, {}, {InPtr(h)});
  }

  lemma CreateBalanced(b: Book, t: Tid, h: Handle, ty: nat)
    requires Balanced(b) && h !in b.ptrs
    ensures Balanced(Create(b, t, h, ty))
  {
    CreateOwners(b, t, h, ty, Create(b, t, h, ty));
    CreateReferents(b, t, h, ty, Create(b, t, h, ty));
    CreateCounts(b, t, h, ty, Create(b, t, h, ty));
  }

  lemma AssignBalanced(b: Book, t: Tid, h: Handle, value: Option<Id>)
    requires Balanced(b) && Ready(b, t)
    requires value.Some? ==> IsPrimary(b, value.value) && b.accounts[value.value].count > 0
    ensures Balanced(Assign(b, t, h, value))
  {
    if h in b.ptrs {
      UnpointBalanced(b, t, h);
    }
    if value.Some? {
      PointBalanced(if h in b.ptrs then Unpoint(b, t, h) else b, h, value.value);
    }
  }

  lemma MakeBalanced(b: Book, t: Tid, h: Handle, ty: nat)
    requires Balanced(b) && Ready(b, t)
    ensures Balanced(Make(b, t, h, ty))
  {
    if h in b.ptrs {
      UnpointBalanced(b, t, h);
    }
    CreateBalanced(if h in b.ptrs then Unpoint(b, t, h) else b, t, h, ty);
  }

  // Decrement

  lemma DecrementViews(b: Book, t: Tid, p: Id, b': Book)
    requires Releases(b, t, p) && p in b.accounts && b' == Decrement(b, t)
    ensures forall u, x :: Throws(b', u, x) <==> Throws(b, u, x)
    ensures forall u, d :: Frees(b', u, d) <==> Frees(b, u, d)
    ensures forall u, x :: Owns(b', u, x) <==> Owns(b, u, x)
    ensures forall u, q :: Releases(b', u, q) <==> Releases(b, u, q) && u != t
    ensures forall u, q :: Destroys(b', u, q) <==> Destroys(b, u, q) || (u == t && q == p && b.accounts[p].count == 1)
  {
  }

  lemma DecrementOwners(b: Book, t: Tid, p: Id, b': Book)
    requires Shape(b) && Releases(b, t, p) && IsPrimary(b, p) && b.accounts[p].count > 0 && b' == Decrement(b, t)
    ensures Apart(b') && NoneLost(b') && OneDestroyer(b')
  {
    DecrementViews(b, t, p, b');
    assert b.accounts[p].count == 1 ==> Destroys(b', t, p);
    StillFound(b, b');
  }

  lemma DecrementReferents(b: Book, t: Tid, p: Id, b': Book)
    requires ReferentsOk(b) && BirthsOk(b) && Releases(b, t, p) && b.accounts[p].count > 0 && b' == Decrement(b, t)
    ensures ReferentsOk(b') && BirthsOk(b')
  {
    DecrementViews(b, t, p, b');
    forall x | Grounded(b, x) ensures Grounded(b', x) {}
  }

  lemma DecrementHolds(b: Book, t: Tid, p: Id, b': Book, k: Token, q: Id)
    requires Releases(b, t, p) && IsPrimary(b, p) && b' == Decrement(b, t)
    ensures Holds(b', k, q) <==> Holds(b, k, q) && !(q == p && k == InRelease(t))
  {
    DecrementViews(b, t, p, b');
    match k
    case InThrow(u, x) =>
    case InPtr(g) =>
    case InRelease(u) =>
  }

  lemma DecrementCounts(b: Book, t: Tid, p: Id, b': Book)
    requires CountsOk(b) && Releases(b, t, p) && IsPrimary(b, p) && b' == Decrement(b, t)
    ensures CountsOk(b')
  {
    forall k, q ensures Holds(b', k, q) <==> Holds(b, k, q) && !(q == p && k == InRelease(t)) {
      DecrementHolds(b, t, p, b', k, q);
    }
    OneAccount(b, b', p, {InRelease(t)}, {});
  }

  // The decrement touches a live header.
  lemma DecrementBalanced(b: Book, t: Tid, p: Id)
    requires Balanced(b) && Releases(b, t, p)
    ensures IsPrimary(b, p) && b.accounts[p].count > 0 && Balanced(Decrement(b, t))
  {
    assert Holds(b, InRelease(t), p);
    Held(b, p, InRelease(t));
    DecrementOwners(b, t, p, Decrement(b, t));
    DecrementReferents(b, t, p, Decrement(b, t));
    DecrementCounts(b, t, p, Decrement(b, t));
  }

  // Destroy

  lemma DestroyViews(b: Book, t: Tid, p: Id, b': Book)
    requires Destroys(b, t, p) && b' == Destroy(b, t)
    ensures forall u, x :: Throws(b', u, x) <==> Throws(b, u, x)
    ensures forall u, d :: Frees(b', u, d) <==> Frees(b, u, d)
    ensures forall u, x :: Owns(b', u, x) <==> Owns(b, u, x)
    ensures forall u, q :: Releases(b', u, q) <==> Releases(b, u, q)
    ensures forall u, q :: Destroys(b', u, q) <==> Destroys(b, u, q) && u != t
  {
  }

  lemma DestroyOwners(b: Book, t: Tid, p: Id, b': Book)
    requires Shape(b) && Destroys(b, t, p) && b' == Destroy(b, t)
    ensures Apart(b') && NoneLost(b') && OneDestroyer(b')
  {
    DestroyViews(b, t, p, b');
    StillFound(b, b');
  }

  lemma DestroyReferents(b: Book, t: Tid, p: Id, b': Book)
    requires ReferentsOk(b) && BirthsOk(b) && OneDestroyer(b) && Destroys(b, t, p) && b' == Destroy(b, t)
    requires forall k :: !Holds(b, k, p)
    ensures ReferentsOk(b') && BirthsOk(b')
  {
    DestroyViews(b, t, p, b');
    forall u, x | Throws(b, u, x) ensures Grounded(b', x) {
      assert Grounded(b, x);
      assert !Holds(b, InThrow(u, x), p);
    }
    forall h | h in b.ptrs ensures IsPrimary(b', b.ptrs[h]) {
      assert !Holds(b, InPtr(h), p);
    }
    forall u, q | Releases(b, u, q) ensures IsPrimary(b', q) {
      assert !Holds(b, InRelease(u), p);
    }
  }

  lemma DestroyCounts(b: Book, t: Tid, p: Id, b': Book)
    requires ReferentsOk(b) && CountsOk(b) && Destroys(b, t, p) && b' == Destroy(b, t)
    requires forall k :: !Holds(b, k, p)
    ensures CountsOk(b')
  {
    DestroyViews(b, t, p, b');
    forall k, q ensures Holds(b', k, q) <==> Holds(b, k, q) {
      match k
      case InThrow(u, x) => assert Throws(b, u, x) ==> Grounded(b, x) && !Holds(b, InThrow(u, x), p);
      case InPtr(g) =>
      case InRelease(u) =>
    }
    OneAccount(b, b', p, {}, {});
  }

  lemma DestroyBalanced(b: Book, t: Tid, p: Id)
    requires Balanced(b) && Destroys(b, t, p)
    ensures IsPrimary(b, p) && Balanced(Destroy(b, t))
  {
    Unheld(b, p);
    DestroyOwners(b, t, p, Destroy(b, t));
    DestroyReferents(b, t, p, Destroy(b, t));
    DestroyCounts(b, t, p, Destroy(b, t));
  }

  // Discard

  lemma DiscardViews(b: Book, t: Tid, d: Id, b': Book)
    requires t in b.pending && b.pending[t] == Drop(d) && b' == Discard(b, t)
    ensures forall u, x :: Throws(b', u, x) <==> Throws(b, u, x)
    ensures forall u, x :: Frees(b', u, x) <==> Frees(b, u, x) && u != t
    ensures forall u, q :: Releases(b', u, q) <==> Releases(b, u, q)
    ensures forall u, q :: Destroys(b', u, q) <==> Destroys(b, u, q)
  {
  }

  lemma DiscardOwners(b: Book, t: Tid, d: Id, b': Book)
    requires Shape(b) && t in b.pending && b.pending[t] == Drop(d) && b' == Discard(b, t)
    ensures Apart(b') && NoneLost(b') && OneDestroyer(b')
  {
    DiscardViews(b, t, d, b');
    forall u, x ensures Owns(b', u, x) <==> Owns(b, u, x) && x != d {
      assert Frees(b, t, d);
      assert Owns(b, t, d);
      assert Owns(b, u, x) && x == d ==> u == t;
    }
    StillFound(b, b');
  }

  lemma DiscardReferents(b: Book, t: Tid, d: Id, b': Book)
    requires Apart(b) && ReferentsOk(b) && BirthsOk(b) && t in b.pending && b.pending[t] == Drop(d) && b' == Discard(b, t)
    ensures ReferentsOk(b') && BirthsOk(b')
  {
    DiscardViews(b, t, d, b');
    assert Frees(b, t, d);
    forall u, x | Throws(b, u, x) ensures Grounded(b', x) {
      assert Owns(b, u, x) && Owns(b, t, d);
      assert Grounded(b, x);
    }
    forall u, x | Frees(b, u, x) && u != t ensures x != d {
      assert Owns(b, u, x) && Owns(b, t, d);
    }
  }

  lemma DiscardHolds(b: Book, t: Tid, d: Id, b': Book, k: Token, q: Id)
    requires Apart(b) && ReferentsOk(b) && t in b.pending && b.pending[t] == Drop(d) && b' == Discard(b, t)
    ensures Holds(b', k, q) <==> Holds(b, k, q)
  {
    DiscardViews(b, t, d, b');
    assert Frees(b, t, d) && Owns(b, t, d);
    match k
    case InThrow(u, x) => assert Throws(b, u, x) ==> Grounded(b, x) && Owns(b, u, x);
    case InPtr(g) =>
    case InRelease(u) =>
  }

  lemma DiscardCounts(b: Book, t: Tid, d: Id, b': Book)
    requires Apart(b) && ReferentsOk(b) && CountsOk(b) && t in b.pending && b.pending[t] == Drop(d) && b' == Discard(b, t)
    ensures CountsOk(b')
  {
    forall k, q ensures Holds(b', k, q) <==> Holds(b, k, q) {
      DiscardHolds(b, t, d, b', k, q);
    }
    assert Frees(b, t, d);
    forall q | IsPrimary(b', q) ensures b'.accounts[q].count == |Holders(b', q)| {
      Recount(b, b', q, {}, {});
    }
  }

  lemma DiscardBalanced(b: Book, t: Tid, d: Id)
    requires Balanced(b) && t in b.pending && b.pending[t] == Drop(d)
    ensures d in b.accounts && Balanced(Discard(b, t))
  {
    assert Frees(b, t, d);
    DiscardOwners(b, t, d, Discard(b, t));
    DiscardReferents(b, t, d, Discard(b, t));
    DiscardCounts(b, t, d, Discard(b, t));
  }
}
