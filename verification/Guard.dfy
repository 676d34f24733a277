// The one-word guard of src/guard.cc under any number of threads. Each atomic load, store and
// compare-exchange is one step, and a compare-exchange may fail although the word is as expected.
module Guard {
  import opened Lists

  type Tid = nat

  type Word = nat

  // The three instantiations of SingleWordGuard.
  datatype Layout = Word32 | Little64 | Big64

  function Locked(l: Layout): Word {
    match l case Word32 => 0x8000_0000 case Little64 => 0x8000_0000_0000_0000 case Big64 => 1
  }

  function Initialised(l: Layout): Word {
    match l case Word32 => 1 case Little64 => 1 case Big64 => 0x100_0000_0000_0000
  }

  // Of a thread in __cxa_guard_acquire: past the fast check and trying for the lock, or about to
  // return a known answer. A thread that returned 1 holds the guard until it releases or aborts.
  datatype Pc = Idle | Spinning | Returning(one: bool) | Holding

  datatype Event =
    | Returned(t: Tid, one: bool)
    | Released(t: Tid)
    | Aborted(t: Tid)

  datatype State = State(val: Word, pcs: map<Tid, Pc>)

  // The next thread to take a step. The flag decides what is open: whether a compare-exchange
  // fails without cause, and whether construction ends in release or in abort.
  datatype Choice = Choice(t: Tid, flag: bool)

  const START := State(0, map[])

  function At(s: State, t: Tid): Pc {
    if t in s.pcs then s.pcs[t] else Idle
  }

  // is_initialised: the bit of the initialised mark is set.
  predicate Has(l: Layout, val: Word) {
    match l case Word32 => val % 2 == 1 case Little64 => val % 2 == 1 case Big64 => val / 0x100_0000_0000_0000 % 2 == 1
  }

  function Step(l: Layout, s: State, c: Choice): (State, Option<Event>) {
    var t := c.t;
    match At(s, t)
    case Idle => (s.(pcs := s.pcs[t := if Has(l, s.val) then Returning(false) else Spinning]), None)
    case Spinning =>
      if s.val == 0 && !c.flag then (State(Locked(l), s.pcs[t := Returning(true)]), None)
      else (s.(pcs := s.pcs[t := if s.val == Initialised(l) then Returning(false) else Spinning]), None)
    case Returning(one) => (s.(pcs := s.pcs[t := if one then Holding else Idle]), Some(Returned(t, one)))
    case Holding =>
      (State(if c.flag then Initialised(l) else 0, s.pcs[t := Idle]), Some(if c.flag then Released(t) else Aborted(t)))
  }

  function Run(l: Layout, s: State, schedule: seq<Choice>): (State, seq<Event>) {
    if schedule == [] then (s, [])
    else
      var (s', trace) := Run(l, s, schedule[..|schedule| - 1]);
      var (s'', event) := Step(l, s', schedule[|schedule| - 1]);
      (s'', trace + Seen(event))
  }

  function Seen(event: Option<Event>): seq<Event> {
    match event case None => [] case Some(e) => [e]
  }

  // ----- What every reachable state satisfies -----

  predicate Owns(s: State, t: Tid) {
    At(s, t) == Returning(true) || At(s, t) == Holding
  }

  ghost predicate Valid(l: Layout, s: State) {
    && (s.val == 0 || s.val == Locked(l) || s.val == Initialised(l))
    && (forall t: Tid, u: Tid :: Owns(s, t) && Owns(s, u) ==> t == u)
    && (s.val == Locked(l) <==> exists t: Tid :: Owns(s, t))
    && (forall t: Tid :: At(s, t) == Returning(false) ==> s.val == Initialised(l))
  }

  lemma Words(l: Layout)
    ensures !Has(l, 0) && !Has(l, Locked(l)) && Has(l, Initialised(l))
    ensures Locked(l) != 0 && Initialised(l) != 0 && Locked(l) != Initialised(l)
  {
  }

  datatype Kind = Grant | Release | Abort

  predicate Is(e: Event, kind: Kind) {
    match kind
    case Grant => e.Returned? && e.one
    case Release => e.Released?
    case Abort => e.Aborted?
  }

  function Count(trace: seq<Event>, kind: Kind): nat {
    if trace == [] then 0
    else Count(trace[..|trace| - 1], kind) + if Is(trace[|trace| - 1], kind) then 1 else 0
  }

  // What a trace must look like: acquire returns 0 only after a release, and after a release no
  // acquire returns 1 and nothing is released or aborted again.
  ghost predicate Proper(trace: seq<Event>) {
    && (forall i :: 0 <= i < |trace| && trace[i].Returned? && !trace[i].one ==> exists j :: 0 <= j < i && trace[j].Released?)
    && (forall i, j :: 0 <= i < j < |trace| && trace[i].Released? ==> trace[j].Returned? && !trace[j].one)
  }

  ghost predicate InProgress(s: State) {
    exists t: Tid :: At(s, t) == Holding
  }

  ghost predicate Tallied(l: Layout, s: State, trace: seq<Event>) {
    && Count(trace, Grant) == Count(trace, Abort) + Count(trace, Release) + (if InProgress(s) then 1 else 0)
    && (s.val == Initialised(l) <==> exists i :: 0 <= i < |trace| && trace[i].Released?)
  }

  lemma StepKeeps(l: Layout, s: State, c: Choice)
    requires Valid(l, s)
    ensures Valid(l, Step(l, s, c).0)
  {
    Words(l);
    var s' := Step(l, s, c).0;
    assert forall u: Tid :: u != c.t ==> At(s', u) == At(s, u) && Owns(s', u) == Owns(s, u);
    assert Owns(s, c.t) ==> s.val == Locked(l) && forall u: Tid :: u != c.t ==> !Owns(s, u);
    assert Owns(s', c.t) ==> s'.val == Locked(l) && (Owns(s, c.t) || s.val == 0);
    if s'.val == Locked(l) && !Owns(s', c.t) {
      var t: Tid :| Owns(s, t);
      assert Owns(s', t);
    }
  }

  // How a step moves the word and the construction in progress.
  lemma StepProgress(l: Layout, s: State, c: Choice)
    requires Valid(l, s)
    ensures var (s', event) := Step(l, s, c);
      match event
      case None => (InProgress(s') <==> InProgress(s)) && (s'.val == Initialised(l) <==> s.val == Initialised(l))
      case Some(Returned(_, one)) => (InProgress(s') <==> one || InProgress(s)) && (one ==> !InProgress(s)) && s'.val == s.val
      case Some(Released(_)) => InProgress(s) && !InProgress(s') && s'.val == Initialised(l) != s.val
      case Some(Aborted(_)) => InProgress(s) && !InProgress(s') && s'.val == 0 && s.val == Locked(l)
  {
    Words(l);
    var (s', event) := Step(l, s, c);
    assert forall u: Tid :: u != c.t ==> At(s', u) == At(s, u);
    assert forall t: Tid :: At(s, t) == Holding ==> Owns(s, t);
    assert Owns(s, c.t) ==> s.val == Locked(l);
    if At(s, c.t) == Holding {
      assert InProgress(s);
    } else if At(s, c.t) == Returning(true) {
      assert At(s', c.t) == Holding;
    } else if InProgress(s) {
      var t: Tid :| At(s, t) == Holding;
      assert At(s', t) == Holding;
    }
  }

  lemma CountSeen(trace: seq<Event>, e: Event, kind: Kind)
    ensures Count(trace + [e], kind) == Count(trace, kind) + if Is(e, kind) then 1 else 0
  {
    assert (trace + [e])[..|trace|] == trace;
  }

  lemma StepTallies(l: Layout, s: State, c: Choice, trace: seq<Event>)
    requires Valid(l, s) && Tallied(l, s, trace)
    ensures var (s', event) := Step(l, s, c); Tallied(l, s', trace + Seen(event))
  {
    Words(l);
    StepProgress(l, s, c);
    match Step(l, s, c).1
    case None => assert trace + [] == trace;
    case Some(e) =>
      CountSeen(trace, e, Grant);
      CountSeen(trace, e, Release);
      CountSeen(trace, e, Abort);
      var longer := trace + [e];
      assert longer[|trace|] == e && forall i :: 0 <= i < |trace| ==> longer[i] == trace[i];
  }

  lemma StepProper(l: Layout, s: State, c: Choice, trace: seq<Event>)
    requires Valid(l, s) && Tallied(l, s, trace) && Proper(trace)
    ensures Proper(trace + Seen(Step(l, s, c).1))
  {
    Words(l);
    var event := Step(l, s, c).1;
    match event
    case None => assert trace + [] == trace;
    case Some(e) =>
      if Owns(s, c.t) {
        assert s.val == Locked(l);
      }
      var longer := trace + [e];
      assert forall i :: 0 <= i < |trace| ==> longer[i] == trace[i];
  }

  // The construction granted at i has been released or aborted by the same thread before j.
  ghost predicate Closed(trace: seq<Event>, i: nat, j: nat)
    requires i < |trace| && j <= |trace|
  {
    exists k :: i < k < j && (trace[k] == Released(trace[i].t) || trace[k] == Aborted(trace[i].t))
  }

  // No two constructions overlap.
  ghost predicate Exclusive(trace: seq<Event>) {
    forall i, j :: 0 <= i < j < |trace| && Is(trace[i], Grant) && Is(trace[j], Grant) ==> Closed(trace, i, j)
  }

  // A construction that is not closed yet is the one in progress.
  ghost predicate Tracked(s: State, trace: seq<Event>) {
    forall i :: 0 <= i < |trace| && Is(trace[i], Grant) ==> Closed(trace, i, |trace|) || At(s, trace[i].t) == Holding
  }

  lemma ClosedLonger(trace: seq<Event>, e: Event, i: nat, j: nat)
    requires i < |trace| && j <= |trace| && Closed(trace, i, j)
    ensures Closed(trace + [e], i, j) && Closed(trace + [e], i, |trace| + 1)
  {
    var longer := trace + [e];
    var k :| i < k < j && (trace[k] == Released(trace[i].t) || trace[k] == Aborted(trace[i].t));
    assert longer[k] == trace[k] && longer[i] == trace[i];
  }

  lemma StepExclusive(l: Layout, s: State, c: Choice, trace: seq<Event>)
    requires Valid(l, s) && Tracked(s, trace) && Exclusive(trace)
    ensures var (s', event) := Step(l, s, c); Tracked(s', trace + Seen(event)) && Exclusive(trace + Seen(event))
  {
    Words(l);
    StepProgress(l, s, c);
    var (s', event) := Step(l, s, c);
    assert forall u: Tid :: u != c.t ==> At(s', u) == At(s, u);
    if event.None? {
      assert trace + [] == trace;
    } else {
      var longer := trace + [event.value];
      assert longer[|trace|] == event.value && forall i :: 0 <= i < |trace| ==> longer[i] == trace[i];
      forall i | 0 <= i < |trace| && Is(trace[i], Grant)
        ensures Closed(longer, i, |longer|) || At(s', trace[i].t) == Holding
        ensures Is(event.value, Grant) ==> Closed(longer, i, |trace|)
        ensures forall j :: i < j < |trace| && Is(trace[j], Grant) ==> Closed(longer, i, j)
      {
        if Closed(trace, i, |trace|) {
          ClosedLonger(trace, event.value, i, |trace|);
        } else {
          assert InProgress(s);
        }
        forall j | i < j < |trace| && Is(trace[j], Grant) ensures Closed(longer, i, j) {
          ClosedLonger(trace, event.value, i, j);
        }
      }
    }
  }

  // Every run: at most one thread owns the guard and constructions do not overlap; the number of
  // 1-returns is the number of aborts and releases, plus one while construction is in progress;
  // and the trace is proper.
  lemma {:induction false} RunKeeps(l: Layout, schedule: seq<Choice>)
    ensures var (s, trace) := Run(l, START, schedule); Valid(l, s) && Tallied(l, s, trace) && Proper(trace)
    ensures var (s, trace) := Run(l, START, schedule); Tracked(s, trace) && Exclusive(trace)
    decreases |schedule|
  {
    if schedule == [] {
      Words(l);
    } else {
      var (s, trace) := Run(l, START, schedule[..|schedule| - 1]);
      var c := schedule[|schedule| - 1];
      RunKeeps(l, schedule[..|schedule| - 1]);
      StepKeeps(l, s, c);
      StepTallies(l, s, c, trace);
      StepProper(l, s, c, trace);
      StepExclusive(l, s, c, trace);
    }
  }

  // ----- The byte that compiled code tests -----

  // The byte of the word at the lowest address.
  function FirstByte(l: Layout, val: Word): nat {
    match l case Word32 => val % 0x100 case Little64 => val % 0x100 case Big64 => val / 0x100_0000_0000_0000
  }

  lemma ByteOfWord(l: Layout, val: Word)
    requires val == 0 || val == Locked(l) || val == Initialised(l)
    ensures FirstByte(l, val) != 0 <==> val == Initialised(l)
  {
  }

  // Code that calls __cxa_guard_acquire only if the first byte is zero: over every run it is zero until
  // some thread has released, also while a thread holds the guard, and never again after that.
  lemma {:induction false} FirstByteMeaning(l: Layout, schedule: seq<Choice>)
    ensures var (s, trace) := Run(l, START, schedule);
      FirstByte(l, s.val) != 0 <==> exists i :: 0 <= i < |trace| && trace[i].Released?
  {
    var (s, trace) := Run(l, START, schedule);
    RunKeeps(l, schedule);
    assert Tallied(l, s, trace);
    ByteOfWord(l, s.val);
  }

  // ----- Threads get on -----

  // A thread that takes this many steps on its own, without failing for no cause.
  function Alone(t: Tid, n: nat): seq<Choice> {
    if n == 0 then [] else Alone(t, n - 1) + [Choice(t, false)]
  }

  lemma RunAlone(l: Layout, s: State, t: Tid, n: nat)
    requires n > 0
    ensures var (s', trace) := Run(l, s, Alone(t, n - 1));
      var (s'', event) := Step(l, s', Choice(t, false));
      Run(l, s, Alone(t, n)) == (s'', trace + Seen(event))
  {
    assert Alone(t, n)[..n - 1] == Alone(t, n - 1) && |Alone(t, n - 1)| == n - 1 by {
      AloneLength(t, n - 1);
    }
  }

  lemma {:induction false} AloneLength(t: Tid, n: nat)
    ensures |Alone(t, n)| == n
  {
    if n > 0 {
      AloneLength(t, n - 1);
    }
  }

  // Unless another thread holds the guard, a call of __cxa_guard_acquire returns: 0 after two steps if
  // the guard is initialised, and otherwise 1 after three. In the loop it takes two steps to return.
  lemma AcquireReturns(l: Layout, s: State, t: Tid)
    requires s.val == 0 || s.val == Initialised(l)
    ensures At(s, t) == Idle ==>
      Run(l, s, Alone(t, if s.val == 0 then 3 else 2)).1 == [Returned(t, s.val == 0)]
    ensures At(s, t) == Spinning ==> Run(l, s, Alone(t, 2)).1 == [Returned(t, s.val == 0)]
  {
    Words(l);
    RunAlone(l, s, t, 1);
    RunAlone(l, s, t, 2);
    RunAlone(l, s, t, 3);
    assert Run(l, s, Alone(t, 0)) == (s, []);
  }

  // While another thread holds it, a thread in the loop stays there.
  lemma AcquireWaits(l: Layout, s: State, c: Choice)
    requires s.val == Locked(l) && At(s, c.t) == Spinning
    ensures Step(l, s, c) == (s.(pcs := s.pcs[c.t := Spinning]), None)
  {
    Words(l);
  }

  // The thread that holds the guard gives it up in one step.
  lemma HolderReturns(l: Layout, s: State, c: Choice)
    requires At(s, c.t) == Holding
    ensures Step(l, s, c).1 == Some(if c.flag then Released(c.t) else Aborted(c.t)) && At(Step(l, s, c).0, c.t) == Idle
  {
  }
}
