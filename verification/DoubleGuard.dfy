// The two-word guard of src/guard.cc, which refines the one-word guard step by step.
//
// `== true` after a predicate keeps Dafny from taking it apart into its conjuncts, which is slow.
module DoubleGuard {
  import opened Lists
  import Guard

  type Tid = Guard.Tid

  type Word = nat

  // DoubleWordGuard<31, 0> and DoubleWordGuard<0, 24>.
  datatype Layout = Little32 | Big32

  function Locked(l: Layout): Word {
    match l case Little32 => 0x8000_0000 case Big32 => 1
  }

  function Initialised(l: Layout): Word {
    match l case Little32 => 1 case Big32 => 0x100_0000
  }

  // The byte of a word at the lowest address.
  function FirstByte(l: Layout, w: Word): Word {
    match l case Little32 => w % 0x100 case Big32 => w / 0x100_0000
  }

  // A thread that gets the lock first looks at the init word, and gives the lock back if it is set.
  // Release and abort store to both words and then check the first byte of the guard.
  datatype Pc =
    | Idle | Spinning | Looking | GivingBack | Returning0 | Holding
    | Unlocking(done: bool) | Asserting(done: bool) | Failed

  datatype State = State(init: Word, lock: Word, pcs: map<Tid, Pc>)

  const START := State(0, 0, map[])

  function At(s: State, t: Tid): Pc {
    if t in s.pcs then s.pcs[t] else Idle
  }

  predicate Has(l: Layout, init: Word) {
    match l case Little32 => init % 2 == 1 case Big32 => init / 0x100_0000 % 2 == 1
  }

  predicate AssertHolds(l: Layout, s: State, done: bool) {
    FirstByte(l, s.init) != 0 <==> done
  }

  function Move(s: State, t: Tid, pc: Pc): State {
    s.(pcs := s.pcs[t := pc])
  }

  function Step(l: Layout, s: State, c: Guard.Choice): (State, Option<Guard.Event>) {
    var t := c.t;
    match At(s, t)
    case Idle => (Move(s, t, if Has(l, s.init) then Returning0 else Spinning), None)
    case Spinning =>
      if s.lock == 0 && !c.flag then (Move(s, t, Looking).(lock := Locked(l)), None) else (s, None)
    case Looking =>
      if Has(l, s.init) then (Move(s, t, GivingBack), None) else (Move(s, t, Holding), Some(Guard.Returned(t, true)))
    case GivingBack => (Move(s, t, Returning0).(lock := 0), None)
    case Returning0 => (Move(s, t, Idle), Some(Guard.Returned(t, false)))
    case Holding =>
      (Move(s, t, Unlocking(c.flag)).(init := if c.flag then Initialised(l) else 0),
       if c.flag then Some(Guard.Released(t)) else None)
    case Unlocking(done) =>
      (Move(s, t, Asserting(done)).(lock := 0), if done then None else Some(Guard.Aborted(t)))
    case Asserting(done) => (Move(s, t, if AssertHolds(l, s, done) then Idle else Failed), None)
    case Failed => (s, None)
  }

  function Run(l: Layout, s: State, schedule: seq<Guard.Choice>): (State, seq<Guard.Event>) {
    if schedule == [] then (s, [])
    else
      var (s', trace) := Run(l, s, schedule[..|schedule| - 1]);
      var (s'', event) := Step(l, s', schedule[|schedule| - 1]);
      (s'', trace + Guard.Seen(event))
  }

  lemma Words(l: Layout)
    ensures !Has(l, 0) && Has(l, Initialised(l)) && Locked(l) != 0 && Initialised(l) != 0
    ensures FirstByte(l, 0) == 0 && FirstByte(l, Initialised(l)) != 0
  {
  }

  // ----- What every reachable state satisfies -----

  // A thread that holds the lock word.
  predicate Locks(pc: Pc) {
    pc.Looking? || pc.GivingBack? || pc.Holding? || pc.Unlocking?
  }

  // What a thread knows about the init word. A thread that holds the lock without having found
  // the init word set knows that it is clear: the init word changes only under the lock.
  predicate Knows(s: State, l: Layout, pc: Pc) {
    && (pc.GivingBack? || pc.Returning0? || pc == Unlocking(true) || pc == Asserting(true) ==> s.init == Initialised(l))
    && (pc.Holding? || pc == Unlocking(false) ==> s.init == 0)
  }

  ghost predicate Valid(l: Layout, s: State) {
    && (s.init == 0 || s.init == Initialised(l)) && (s.lock == 0 || s.lock == Locked(l))
    && (forall t: Tid, u: Tid :: Locks(At(s, t)) && Locks(At(s, u)) ==> t == u)
    && (s.lock == Locked(l) <==> exists t: Tid :: Locks(At(s, t)))
    && (forall t: Tid :: Knows(s, l, At(s, t)))
  }

  // What a step changes, seen from the thread that takes it and from the others.
  lemma StepLocks(l: Layout, s: State, c: Guard.Choice)
    requires Valid(l, s)
    ensures var s' := Step(l, s, c).0;
      && (forall u: Tid :: u != c.t ==> At(s', u) == At(s, u))
      && (Locks(At(s', c.t)) ==> s'.lock == Locked(l) && forall u: Tid :: u != c.t ==> !Locks(At(s, u)))
      && (s'.lock == Locked(l) && !Locks(At(s', c.t)) ==> s.lock == Locked(l) && !Locks(At(s, c.t)))
      && (!Locks(At(s', c.t)) && Locks(At(s, c.t)) ==> s'.lock == 0)
      && (!Locks(At(s, c.t)) && !Locks(At(s', c.t)) ==> s'.lock == s.lock)
      && (s'.lock == 0 || s'.lock == Locked(l))
      && (s'.init != s.init ==> At(s, c.t).Holding?)
  {
    Words(l);
    assert Knows(s, l, At(s, c.t));
    assert Locks(At(s, c.t)) ==> s.lock == Locked(l) && forall u: Tid :: u != c.t ==> !Locks(At(s, u));
  }

  lemma StepKnows(l: Layout, s: State, c: Guard.Choice)
    requires Valid(l, s)
    ensures var s' := Step(l, s, c).0;
      (s'.init == 0 || s'.init == Initialised(l)) && forall t: Tid :: Knows(s', l, At(s', t))
  {
    Words(l);
    StepLocks(l, s, c);
    var s' := Step(l, s, c).0;
    assert Knows(s, l, At(s, c.t));
    forall t: Tid ensures Knows(s', l, At(s', t)) {
      assert Knows(s, l, At(s, t));
      if t != c.t && At(s, c.t).Holding? {
        assert !Locks(At(s, t));
      }
    }
  }

  lemma StepKeeps(l: Layout, s: State, c: Guard.Choice)
    requires Valid(l, s)
    ensures Valid(l, Step(l, s, c).0) == true
  {
    Words(l);
    StepLocks(l, s, c);
    StepKnows(l, s, c);
    var s' := Step(l, s, c).0;
    if s'.lock == Locked(l) && !Locks(At(s', c.t)) {
      var t: Tid :| Locks(At(s, t));
      assert Locks(At(s', t));
    }
  }

  // ----- Refinement -----

  // The map to the one-word guard: initialised if the init word is set, else locked if the lock
  // word is set, else 0.
  function Val(l: Layout, single: Guard.Layout, s: State): Guard.Word {
    if Has(l, s.init) then Guard.Initialised(single) else if s.lock == Locked(l) then Guard.Locked(single) else 0
  }

  function AbsPc(l: Layout, s: State, pc: Pc): Guard.Pc {
    match pc
    case Idle => Guard.Idle
    case Spinning => Guard.Spinning
    case Looking => if Has(l, s.init) then Guard.Spinning else Guard.Returning(true)
    case GivingBack => Guard.Spinning
    case Returning0 => Guard.Returning(false)
    case Holding => Guard.Holding
    case Unlocking(done) => if done then Guard.Idle else Guard.Holding
    case Asserting(_) => Guard.Idle
    case Failed => Guard.Idle
  }

  function Abs(l: Layout, single: Guard.Layout, s: State): Guard.State {
    Guard.State(Val(l, single, s), map t | t in s.pcs :: AbsPc(l, s, s.pcs[t]))
  }

  // The steps that the one-word guard takes for a step of the two-word guard: one or none.
  function Answer(l: Layout, s: State, c: Guard.Choice): seq<Guard.Choice> {
    match At(s, c.t)
    case Spinning => if s.lock == 0 && !c.flag && !Has(l, s.init) then [c] else []
    case Looking => if Has(l, s.init) then [] else [c]
    case Holding => if c.flag then [c] else []
    case Unlocking(done) => if done then [] else [Guard.Choice(c.t, false)]
    case Asserting(_) => []
    case Failed => []
    case _ => [c]
  }

  lemma AbsAt(l: Layout, single: Guard.Layout, s: State, t: Tid)
    ensures Guard.At(Abs(l, single, s), t) == AbsPc(l, s, At(s, t))
  {
  }

  lemma RunNone(single: Guard.Layout, s: Guard.State)
    ensures Guard.Run(single, s, []) == (s, [])
  {
  }

  lemma RunOne(single: Guard.Layout, s: Guard.State, c: Guard.Choice)
    ensures Guard.Run(single, s, [c]) == (Guard.Step(single, s, c).0, Guard.Seen(Guard.Step(single, s, c).1))
  {
    assert [c][..0] == [];
    assert [] + Guard.Seen(Guard.Step(single, s, c).1) == Guard.Seen(Guard.Step(single, s, c).1);
  }

  // A step leaves what the map says about the other threads alone.
  lemma OthersStay(l: Layout, s: State, c: Guard.Choice, u: Tid)
    requires Valid(l, s) && u != c.t
    ensures var s' := Step(l, s, c).0; At(s', u) == At(s, u) && AbsPc(l, s', At(s', u)) == AbsPc(l, s, At(s, u))
  {
    StepLocks(l, s, c);
    assert Locks(At(s, c.t)) ==> !Locks(At(s, u));
  }

  lemma AbsMoves(l: Layout, single: Guard.Layout, s: State, s': State, t: Tid, pcs: map<Tid, Guard.Pc>)
    requires s'.pcs.Keys == s.pcs.Keys || s'.pcs.Keys == s.pcs.Keys + {t}
    requires forall u: Tid :: u != t ==> AbsPc(l, s', At(s', u)) == AbsPc(l, s, At(s, u))
    requires pcs == if t in s'.pcs then Abs(l, single, s).pcs[t := AbsPc(l, s', s'.pcs[t])] else Abs(l, single, s).pcs
    ensures Abs(l, single, s').pcs == pcs
  {
    forall u: Tid | u in s'.pcs && u != t ensures AbsPc(l, s', s'.pcs[u]) == AbsPc(l, s, s.pcs[u]) {
      assert AbsPc(l, s', At(s', u)) == AbsPc(l, s, At(s, u));
    }
  }

  // The answer on the word and on the thread that takes the step.
  lemma NoAnswer(l: Layout, single: Guard.Layout, s: State, c: Guard.Choice)
    requires Valid(l, s) && Answer(l, s, c) == []
    ensures var (s', event) := Step(l, s, c);
      event == None && Val(l, single, s') == Val(l, single, s) && AbsPc(l, s', At(s', c.t)) == AbsPc(l, s, At(s, c.t))
  {
    Words(l);
    assert Knows(s, l, At(s, c.t));
    assert Locks(At(s, c.t)) ==> s.lock == Locked(l);
  }

  lemma OneAnswer(l: Layout, single: Guard.Layout, s: State, c: Guard.Choice, a: Guard.State)
    requires Valid(l, s) && a.val == Val(l, single, s) && Guard.At(a, c.t) == AbsPc(l, s, At(s, c.t))
    requires Answer(l, s, c) != []
    ensures var (s', event) := Step(l, s, c);
      var answer := Answer(l, s, c);
      && |answer| == 1 && answer[0].t == c.t
      && Guard.Step(single, a, answer[0]) == (Guard.State(Val(l, single, s'), a.pcs[c.t := AbsPc(l, s', At(s', c.t))]), event)
  {
    Words(l);
    Guard.Words(single);
    assert Knows(s, l, At(s, c.t));
    assert Locks(At(s, c.t)) ==> s.lock == Locked(l);
  }

  lemma AllOthersStay(l: Layout, s: State, c: Guard.Choice)
    requires Valid(l, s)
    ensures var s' := Step(l, s, c).0;
      forall u: Tid :: u != c.t ==> AbsPc(l, s', At(s', u)) == AbsPc(l, s, At(s, u))
    ensures var s' := Step(l, s, c).0; s'.pcs.Keys == s.pcs.Keys || s'.pcs.Keys == s.pcs.Keys + {c.t}
    ensures Answer(l, s, c) != [] ==> c.t in Step(l, s, c).0.pcs
  {
    var s' := Step(l, s, c).0;
    forall u: Tid | u != c.t ensures AbsPc(l, s', At(s', u)) == AbsPc(l, s, At(s, u)) {
      OthersStay(l, s, c, u);
    }
  }

  // Every step of the two-word guard is a step of the one-word guard with the same event, or none.
  lemma StepRefines(l: Layout, single: Guard.Layout, s: State, c: Guard.Choice)
    requires Valid(l, s)
    ensures var (s', event) := Step(l, s, c);
      Guard.Run(single, Abs(l, single, s), Answer(l, s, c)) == (Abs(l, single, s'), Guard.Seen(event))
  {
    var a, s', answer := Abs(l, single, s), Step(l, s, c).0, Answer(l, s, c);
    AllOthersStay(l, s, c);
    if answer == [] {
      NoAnswer(l, single, s, c);
      RunNone(single, a);
      AbsMoves(l, single, s, s', c.t, a.pcs);
    } else {
      AbsAt(l, single, s, c.t);
      OneAnswer(l, single, s, c, a);
      RunOne(single, a, answer[0]);
      AbsMoves(l, single, s, s', c.t, a.pcs[c.t := AbsPc(l, s', At(s', c.t))]);
    }
  }

  // The run of the one-word guard that a run of the two-word guard maps to.
  function Answers(l: Layout, schedule: seq<Guard.Choice>): seq<Guard.Choice> {
    if schedule == [] then []
    else
      var before := schedule[..|schedule| - 1];
      Answers(l, before) + Answer(l, Run(l, START, before).0, schedule[|schedule| - 1])
  }

  lemma RunThen(single: Guard.Layout, s: Guard.State, first: seq<Guard.Choice>, next: seq<Guard.Choice>)
    requires |next| <= 1
    ensures var (s', trace) := Guard.Run(single, s, first);
      Guard.Run(single, s, first + next) == (Guard.Run(single, s', next).0, trace + Guard.Run(single, s', next).1)
  {
    var (s', trace) := Guard.Run(single, s, first);
    if next == [] {
      assert first + next == first && trace + [] == trace;
    } else {
      RunOne(single, s', next[0]);
      assert next == [next[0]] && (first + next)[..|first|] == first;
    }
  }

  lemma AnswersOnce(l: Layout, s: State, c: Guard.Choice)
    ensures |Answer(l, s, c)| <= 1
  {
  }

  lemma StartRefines(l: Layout, single: Guard.Layout)
    ensures Valid(l, START) == true && Abs(l, single, START) == Guard.START
  {
    Words(l);
    Guard.Words(single);
  }

  lemma {:induction false} RunRefines(l: Layout, single: Guard.Layout, schedule: seq<Guard.Choice>)
    ensures var (s, trace) := Run(l, START, schedule);
      Valid(l, s) == true && Guard.Run(single, Guard.START, Answers(l, schedule)) == (Abs(l, single, s), trace)
    decreases |schedule|
  {
    if schedule == [] {
      StartRefines(l, single);
    } else {
      var before, c := schedule[..|schedule| - 1], schedule[|schedule| - 1];
      RunRefines(l, single, before);
      var s := Run(l, START, before).0;
      StepKeeps(l, s, c);
      StepRefines(l, single, s, c);
      AnswersOnce(l, s, c);
      RunThen(single, Guard.START, Answers(l, before), Answer(l, s, c));
    }
  }

  // ----- What follows for the two-word guard -----

  // Construction is in progress from the return of 1 to the store that releases or aborts.
  ghost predicate InProgress(s: State) {
    exists t: Tid :: At(s, t).Holding? || At(s, t) == Unlocking(false)
  }

  ghost predicate Tallied(l: Layout, s: State, trace: seq<Guard.Event>) {
    && Guard.Count(trace, Guard.Grant)
      == Guard.Count(trace, Guard.Abort) + Guard.Count(trace, Guard.Release) + (if InProgress(s) then 1 else 0)
    && (s.init == Initialised(l) <==> exists i :: 0 <= i < |trace| && trace[i].Released?)
  }

  lemma AbsInProgress(l: Layout, single: Guard.Layout, s: State)
    ensures Guard.InProgress(Abs(l, single, s)) <==> InProgress(s)
  {
    var a := Abs(l, single, s);
    forall t: Tid ensures Guard.At(a, t) == Guard.Holding <==> At(s, t).Holding? || At(s, t) == Unlocking(false) {
      AbsAt(l, single, s, t);
    }
  }

  lemma AbsTallied(l: Layout, single: Guard.Layout, s: State, trace: seq<Guard.Event>)
    requires Guard.Tallied(single, Abs(l, single, s), trace) && (s.init == 0 || s.init == Initialised(l))
    ensures Tallied(l, s, trace)
  {
    AbsInProgress(l, single, s);
    Words(l);
    Guard.Words(single);
  }

  // Every run: at most one thread holds the lock and constructions do not overlap; the number of
  // 1-returns is the number of aborts and releases, plus one while construction is in progress;
  // and the trace is proper.
  lemma {:induction false} RunKeeps(l: Layout, schedule: seq<Guard.Choice>)
    ensures var (s, trace) := Run(l, START, schedule); Valid(l, s) && Guard.Proper(trace) && Tallied(l, s, trace) && Guard.Exclusive(trace)
  {
    var (s, trace) := Run(l, START, schedule);
    RunRefines(l, Guard.Word32, schedule);
    Guard.RunKeeps(Guard.Word32, Answers(l, schedule));
    AbsTallied(l, Guard.Word32, s, trace);
  }

  // ----- Late lock taking -----

  // The threads in the acquire loop, past the fast check.
  function Spinners(s: State): set<Tid> {
    set t | t in s.pcs && s.pcs[t] == Spinning
  }

  // The successful compare-exchanges of a run.
  function Takes(l: Layout, s: State, schedule: seq<Guard.Choice>): nat {
    if schedule == [] then 0
    else
      var before, c := schedule[..|schedule| - 1], schedule[|schedule| - 1];
      var s' := Run(l, s, before).0;
      Takes(l, s, before) + if At(s', c.t) == Spinning && At(Step(l, s', c).0, c.t) == Looking then 1 else 0
  }

  lemma StepRetires(l: Layout, s: State, c: Guard.Choice)
    requires Valid(l, s) && s.init == Initialised(l)
    ensures var s' := Step(l, s, c).0;
      && s'.init == Initialised(l)
      && Spinners(s') == Spinners(s) - if At(s, c.t) == Spinning && At(s', c.t) == Looking then {c.t} else {}
  {
    Words(l);
    assert Knows(s, l, At(s, c.t));
  }

  // Once the guard is initialised, every successful compare-exchange on the lock word takes one
  // thread out of the acquire loop, and nothing else does.
  lemma {:induction false} TakesRetire(l: Layout, s: State, schedule: seq<Guard.Choice>)
    requires Valid(l, s) && s.init == Initialised(l)
    ensures var s' := Run(l, s, schedule).0;
      && Valid(l, s') && s'.init == Initialised(l)
      && Spinners(s') <= Spinners(s)
      && Takes(l, s, schedule) == |Spinners(s)| - |Spinners(s')|
    decreases |schedule|
  {
    if schedule != [] {
      var before, c := schedule[..|schedule| - 1], schedule[|schedule| - 1];
      TakesRetire(l, s, before);
      var s' := Run(l, s, before).0;
      StepKeeps(l, s', c);
      StepRetires(l, s', c);
      assert At(s', c.t) == Spinning ==> c.t in Spinners(s');
    }
  }

  // ----- Threads get on -----

  lemma RunAlone(l: Layout, s: State, t: Tid, n: nat)
    requires n > 0
    ensures var (s', trace) := Run(l, s, Guard.Alone(t, n - 1));
      var (s'', event) := Step(l, s', Guard.Choice(t, false));
      Run(l, s, Guard.Alone(t, n)) == (s'', trace + Guard.Seen(event))
  {
    Guard.AloneLength(t, n - 1);
    assert Guard.Alone(t, n)[..n - 1] == Guard.Alone(t, n - 1);
  }

  // Steps of a thread on its own, from the first on.
  lemma {:induction false} AloneFirst(l: Layout, s: State, t: Tid, n: nat)
    ensures var (s', event) := Step(l, s, Guard.Choice(t, false));
      var (s'', trace) := Run(l, s', Guard.Alone(t, n));
      Run(l, s, Guard.Alone(t, n + 1)) == (s'', Guard.Seen(event) + trace)
    decreases n
  {
    var (s', event) := Step(l, s, Guard.Choice(t, false));
    RunAlone(l, s, t, n + 1);
    if n > 0 {
      AloneFirst(l, s, t, n - 1);
      RunAlone(l, s', t, n);
      var (before, trace) := Run(l, s', Guard.Alone(t, n - 1));
      JoinedTraces(Guard.Seen(event), trace, Guard.Seen(Step(l, before, Guard.Choice(t, false)).1));
    } else {
      assert Run(l, s, Guard.Alone(t, 0)) == (s, []) && Run(l, s', Guard.Alone(t, 0)) == (s', []);
      assert [] + Guard.Seen(event) == Guard.Seen(event) + [];
    }
  }

  lemma JoinedTraces(a: seq<Guard.Event>, b: seq<Guard.Event>, c: seq<Guard.Event>)
    ensures (a + b) + c == a + (b + c)
  {
  }

  lemma OneAlone(l: Layout, s: State, t: Tid)
    ensures Run(l, s, Guard.Alone(t, 1)) == (Step(l, s, Guard.Choice(t, false)).0, Guard.Seen(Step(l, s, Guard.Choice(t, false)).1))
  {
    RunAlone(l, s, t, 1);
    var event := Step(l, s, Guard.Choice(t, false)).1;
    assert Run(l, s, Guard.Alone(t, 0)) == (s, []) && [] + Guard.Seen(event) == Guard.Seen(event);
  }

  lemma GivingBackReturns(l: Layout, s: State, t: Tid)
    requires At(s, t) == GivingBack
    ensures Run(l, s, Guard.Alone(t, 2)).1 == [Guard.Returned(t, false)] && Run(l, s, Guard.Alone(t, 2)).0.lock == 0
  {
    var s' := Step(l, s, Guard.Choice(t, false)).0;
    assert At(s', t) == Returning0;
    OneAlone(l, s', t);
    AloneFirst(l, s, t, 1);
  }

  lemma LookingReturns(l: Layout, s: State, t: Tid)
    requires At(s, t) == Looking && (s.init == 0 || s.init == Initialised(l))
    ensures s.init == 0 ==> Run(l, s, Guard.Alone(t, 1)).1 == [Guard.Returned(t, true)]
    ensures s.init != 0 ==> Run(l, s, Guard.Alone(t, 3)).1 == [Guard.Returned(t, false)] && Run(l, s, Guard.Alone(t, 3)).0.lock == 0
  {
    Words(l);
    if s.init == 0 {
      OneAlone(l, s, t);
    } else {
      var s' := Step(l, s, Guard.Choice(t, false)).0;
      assert At(s', t) == GivingBack;
      GivingBackReturns(l, s', t);
      AloneFirst(l, s, t, 2);
    }
  }

  lemma SpinningReturns(l: Layout, s: State, t: Tid)
    requires s.lock == 0 && (s.init == 0 || s.init == Initialised(l)) && At(s, t) == Spinning
    ensures Run(l, s, Guard.Alone(t, if s.init == 0 then 2 else 4)).1 == [Guard.Returned(t, s.init == 0)]
    ensures s.init != 0 ==> Run(l, s, Guard.Alone(t, 4)).0.lock == 0
  {
    var s' := Step(l, s, Guard.Choice(t, false)).0;
    LookingReturns(l, s', t);
    AloneFirst(l, s, t, if s.init == 0 then 1 else 3);
  }

  lemma FastReturns(l: Layout, s: State, t: Tid)
    requires s.init == Initialised(l) && At(s, t) == Idle
    ensures Run(l, s, Guard.Alone(t, 2)).1 == [Guard.Returned(t, false)]
  {
    Words(l);
    var s' := Step(l, s, Guard.Choice(t, false)).0;
    assert At(s', t) == Returning0;
    OneAlone(l, s', t);
    AloneFirst(l, s, t, 1);
  }

  // Unless another thread holds the lock, a call of __cxa_guard_acquire returns: 0 after two steps if
  // the guard is initialised, and otherwise 1 after three. In the loop it takes four steps to return 0,
  // with the lock taken and given back, and two to return 1.
  lemma AcquireReturns(l: Layout, s: State, t: Tid)
    requires s.lock == 0 && (s.init == 0 || s.init == Initialised(l))
    ensures At(s, t) == Idle ==>
      Run(l, s, Guard.Alone(t, if s.init == 0 then 3 else 2)).1 == [Guard.Returned(t, s.init == 0)]
    ensures At(s, t) == Spinning ==>
      Run(l, s, Guard.Alone(t, if s.init == 0 then 2 else 4)).1 == [Guard.Returned(t, s.init == 0)]
    ensures At(s, t) == Spinning && s.init != 0 ==> Run(l, s, Guard.Alone(t, 4)).0.lock == 0
  {
    Words(l);
    if At(s, t) == Spinning {
      SpinningReturns(l, s, t);
    } else if At(s, t) == Idle && s.init != 0 {
      FastReturns(l, s, t);
    } else if At(s, t) == Idle {
      var s' := Step(l, s, Guard.Choice(t, false)).0;
      SpinningReturns(l, s', t);
      AloneFirst(l, s, t, 2);
    }
  }

  // A thread that holds the guard gives it up in two steps, and has the answer of the assertion after
  // the third.
  lemma HolderReturns(l: Layout, s: State, t: Tid, done: bool)
    requires At(s, t) == Holding
    ensures var (s1, first) := Step(l, s, Guard.Choice(t, done));
      var (s2, second) := Step(l, s1, Guard.Choice(t, false));
      var s3 := Step(l, s2, Guard.Choice(t, false)).0;
      && Guard.Seen(first) + Guard.Seen(second) == [if done then Guard.Released(t) else Guard.Aborted(t)]
      && s2.lock == 0 && s2.init == (if done then Initialised(l) else 0)
      && At(s3, t) == Idle
  {
    Words(l);
  }

  // The byte that compiled code tests, as for the one-word guard.
  lemma {:induction false} FirstByteMeaning(l: Layout, schedule: seq<Guard.Choice>)
    ensures var (s, trace) := Run(l, START, schedule);
      FirstByte(l, s.init) != 0 <==> exists i :: 0 <= i < |trace| && trace[i].Released?
  {
    RunKeeps(l, schedule);
    Words(l);
  }

  // ----- The assertion at the end of release and abort -----

  // Over every run: it holds after a release, and after an abort exactly when no thread has
  // released before the byte is read.
  lemma {:induction false} AssertMeaning(l: Layout, schedule: seq<Guard.Choice>, t: Tid, done: bool)
    requires At(Run(l, START, schedule).0, t) == Asserting(done)
    ensures var (s, trace) := Run(l, START, schedule);
      AssertHolds(l, s, done) <==> done || !exists i :: 0 <= i < |trace| && trace[i].Released?
  {
    RunKeeps(l, schedule);
    Words(l);
    assert Knows(Run(l, START, schedule).0, l, Asserting(done));
  }

  lemma RunSnoc(l: Layout, schedule: seq<Guard.Choice>, c: Guard.Choice)
    ensures Run(l, START, schedule + [c]).0 == Step(l, Run(l, START, schedule).0, c).0
  {
    assert (schedule + [c])[..|schedule|] == schedule;
  }

  // After one thread has taken the guard.
  const HELD := State(0, 0x8000_0000, map[0 := Holding])

  lemma Takes0() returns (schedule: seq<Guard.Choice>)
    ensures Run(Little32, START, schedule).0 == HELD
  {
    var mine := Guard.Choice(0, false);
    var first := [mine];
    assert [] + [mine] == first;
    RunSnoc(Little32, [], mine);
    RunSnoc(Little32, first, mine);
    RunSnoc(Little32, first + [mine], mine);
    schedule := first + [mine] + [mine];
  }

  // After it has aborted, but before it reads the byte.
  const ABORTED := State(0, 0, map[0 := Asserting(false)])

  lemma Aborts0() returns (schedule: seq<Guard.Choice>)
    ensures Run(Little32, START, schedule).0 == ABORTED
  {
    var mine := Guard.Choice(0, false);
    var before := Takes0();
    RunSnoc(Little32, before, mine);
    RunSnoc(Little32, before + [mine], mine);
    schedule := before + [mine] + [mine];
  }

  // After another thread has taken the guard.
  const RETAKEN := State(0, 0x8000_0000, map[0 := Asserting(false), 1 := Holding])

  lemma Takes1() returns (schedule: seq<Guard.Choice>)
    ensures Run(Little32, START, schedule).0 == RETAKEN
  {
    var other := Guard.Choice(1, false);
    var before := Aborts0();
    RunSnoc(Little32, before, other);
    RunSnoc(Little32, before + [other], other);
    RunSnoc(Little32, before + [other] + [other], other);
    schedule := before + [other] + [other] + [other];
  }

  // One thread aborts; before it reads the byte, another one takes the guard and completes.
  lemma AbortAssertFails()
    ensures exists schedule: seq<Guard.Choice> :: At(Run(Little32, START, schedule).0, 0) == Failed
  {
    var before := Takes1();
    var done, mine := Guard.Choice(1, true), Guard.Choice(0, false);
    RunSnoc(Little32, before, done);
    RunSnoc(Little32, before + [done], mine);
    assert At(Run(Little32, START, before + [done] + [mine]).0, 0) == Failed;
  }
}
