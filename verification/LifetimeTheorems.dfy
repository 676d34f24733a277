// Safety and exactness of exception lifetime over whole runs: every structured program, every
// number of threads, every schedule.
//
// `== true` after a predicate keeps Dafny from taking it apart into its conjuncts, which is slow.
module LifetimeTheorems {
  import opened Lists
  import opened Abi
  import opened CaughtList
  import opened Machine
  import opened Ledger
  import opened Lifetime
  import opened LifetimeSteps

  lemma StartKeeps(programs: map<Tid, Stmt>)
    ensures Inv(Start(programs))
  {
    var w := Start(programs);
    forall t | t in w.threads ensures ThreadOk(w.rt, t, w.threads[t]) {}
    var b := View(w);
    assert forall t, x :: !Owns(b, t, x);
  }

  lemma {:induction false} ExecuteKeeps(w: World, schedule: List<Tid>)
    requires Inv(w)
    ensures !Execute(w, schedule).Fault?
    ensures Execute(w, schedule).Ran? ==> Inv(Execute(w, schedule).w) == true
    decreases schedule
  {
    match schedule
    case Nil =>
    case Cons(t, rest) =>
      StepKeeps(w, t);
      if Step(w, t).Ran? {
        ExecuteKeeps(Step(w, t).w, rest);
      }
  }

  // Every reachable state of every program satisfies the invariant, and no freed header is touched.
  lemma Safety(programs: map<Tid, Stmt>, schedule: List<Tid>)
    ensures !Execute(Start(programs), schedule).Fault?
    ensures Execute(Start(programs), schedule).Ran? ==> Inv(Execute(Start(programs), schedule).w) == true
  {
    StartKeeps(programs);
    ExecuteKeeps(Start(programs), schedule);
  }

  // ----- Births are never forgotten -----

  ghost predicate Later(w: World, w': World) {
    && |w.births| <= |w'.births| && w'.births[..|w.births|] == w.births
    && |w.destroyed| <= |w'.destroyed| && w'.destroyed[..|w.destroyed|] == w.destroyed
    && w'.threads.Keys == w.threads.Keys
  }

  lemma StepLater(w: World, t: Tid)
    ensures Step(w, t).Ran? ==> Later(w, Step(w, t).w)
  {
  }

  lemma {:induction false} ExecuteLater(w: World, schedule: List<Tid>)
    ensures Execute(w, schedule).Ran? ==> Later(w, Execute(w, schedule).w)
    decreases schedule
  {
    match schedule
    case Nil =>
    case Cons(t, rest) =>
      StepLater(w, t);
      if Step(w, t).Ran? {
        ExecuteLater(Step(w, t).w, rest);
      }
  }

  // ----- Reference counts -----

  // The count of a live primary exception is the number of its holders: one for its own throw
  // until its last handler ends, one per live dependent exception, one per exception_ptr, and one
  // per decrement under way.
  lemma CountIsHolders(programs: map<Tid, Stmt>, schedule: List<Tid>, p: Id)
    requires Execute(Start(programs), schedule).Ran?
    ensures var w := Execute(Start(programs), schedule).w;
      && (p in w.rt.headers && w.rt.headers[p].kind.Primary? ==> w.rt.headers[p].referenceCount == |Holders(View(w), p)|)
      && (forall k :: k in Holders(View(w), p) <==> Holds(View(w), k, p))
  {
    Safety(programs, schedule);
    var w := Execute(Start(programs), schedule).w;
    HoldersAre(View(w), p);
    assert IsPrimary(View(w), p) <==> p in w.rt.headers && w.rt.headers[p].kind.Primary?;
  }

  // An exception object is destroyed at most once, and has been destroyed exactly when nobody
  // holds it any more and nobody is about to destroy it.
  lemma {:induction false} DestroyedExactlyOnce(w: World, e: Id)
    requires Inv(w) == true && e < |w.births| && w.births[e].primary
    ensures e in w.destroyed <==> (forall k :: !Holds(View(w), k, e)) && !SomeoneDestroys(View(w), e)
    ensures forall i, j :: 0 <= i < |w.destroyed| && 0 <= j < |w.destroyed| && w.destroyed[i] == w.destroyed[j] ==> i == j
  {
    var b := View(w);
    HoldersAre(b, e);
    if e in w.destroyed {
      assert e !in b.accounts;
      Unknown(b, e);
    } else {
      assert IsPrimary(b, e);
      if b.accounts[e].count == 0 {
        assert SomeoneDestroys(b, e);
      } else {
        assert |Holders(b, e)| != 0;
        var k :| k in Holders(b, e);
      }
    }
  }

  // ----- Structured programs -----

  // Somebody other than a throw of e itself refers to e.
  ghost predicate Referenced(w: World, e: Id) {
    || (exists h :: h in w.ptrs && w.ptrs[h] == e)
    || (exists u, x :: u in w.threads && x in Active(w.threads[u]) && x in w.rt.headers && w.rt.headers[x].kind == Dependent(e))
    || (exists u :: u in w.threads && (w.threads[u].pending.Dec? || w.threads[u].pending.Free?) && w.threads[u].pending.p == e)
  }

  lemma ActiveIsBorn(w: World, t: Tid, x: Id)
    requires Inv(w) && t in w.threads && x in Active(w.threads[t])
    ensures x < |w.births| && w.births[x].thread == t
  {
    assert Throws(View(w), t, x);
    assert Owns(View(w), t, x);
  }

  lemma HolderRefers(w: World, t: Tid, e: Id, k: Token)
    requires Apart(View(w)) && e < |w.births| && w.births[e].thread == t
    requires Holds(View(w), k, e)
    ensures (t in w.threads && e in Active(w.threads[t])) || Referenced(w, e)
  {
    var b := View(w);
    match k
    case InThrow(u, x) =>
      assert x in Active(w.threads[u]);
      if x == e {
        assert Throws(b, u, x) && Owns(b, u, x);
      }
    case InPtr(h) => assert h in w.ptrs && w.ptrs[h] == e;
    case InRelease(u) => assert u in w.threads && w.threads[u].pending.Dec?;
  }

  lemma UnreferencedIsDestroyed(w: World, t: Tid, e: Id)
    requires Inv(w) && t in w.threads && e < |w.births| && w.births[e] == Birth(t, true)
    requires e !in Active(w.threads[t]) && !Referenced(w, e)
    ensures e in w.destroyed
  {
    DestroyedExactlyOnce(w, e);
    forall k ensures !Holds(View(w), k, e) {
      if Holds(View(w), k, e) {
        HolderRefers(w, t, e, k);
      }
    }
  }

  // Between any two moments at which a thread has the same frames, the first of them running: the
  // caught list is the same list with the same counts, uncaughtExceptions has grown by one exactly
  // if the thread now unwinds, and every exception that the thread created in between is either
  // the one in flight, or still referred to, or has been destroyed.
  lemma {:induction false} StructuredRun(w1: World, schedule: List<Tid>, t: Tid)
    requires Inv(w1) && Execute(w1, schedule).Ran?
    requires t in w1.threads && w1.threads[t].control.Run?
    requires var w2 := Execute(w1, schedule).w;
      t in w2.threads && w2.threads[t].frames == w1.threads[t].frames
    ensures var w2 := Execute(w1, schedule).w;
      var entries := Runs(Catches(w1.threads[t].frames));
      && t in w1.rt.globals && t in w2.rt.globals
      && w2.rt.globals[t].caught == w1.rt.globals[t].caught
      && Chain(w1.rt.headers, w1.rt.globals[t].caught, entries)
      && Chain(w2.rt.headers, w2.rt.globals[t].caught, entries)
      && w2.rt.globals[t].uncaught == w1.rt.globals[t].uncaught + (if w2.threads[t].control.Unwind? then 1 else 0)
      && forall e: Id ::
        |w1.births| <= e < |w2.births| && w2.births[e] == Birth(t, true) && w2.threads[t].control != Unwind(e) && !Referenced(w2, e)
        ==> e in w2.destroyed && e !in w1.destroyed
  {
    var w2 := Execute(w1, schedule).w;
    ExecuteKeeps(w1, schedule);
    var th1, th2 := w1.threads[t], w2.threads[t];
    assert ThreadOk(w1.rt, t, th1) && ThreadOk(w2.rt, t, th2);
    forall e: Id | |w1.births| <= e < |w2.births| && w2.births[e] == Birth(t, true)
      && w2.threads[t].control != Unwind(e) && !Referenced(w2, e)
      ensures e in w2.destroyed && e !in w1.destroyed
    {
      if e in Active(th2) {
        assert e in Active(th1);
        ActiveIsBorn(w1, t, e);
      }
      UnreferencedIsDestroyed(w2, t, e);
      assert BirthsOk(View(w1));
    }
  }

  // A thread that has finished its program has nothing caught and nothing in flight.
  lemma ProgramEnds(programs: map<Tid, Stmt>, schedule: List<Tid>, t: Tid)
    requires Execute(Start(programs), schedule).Ran?
    requires var w := Execute(Start(programs), schedule).w;
      t in w.threads && w.threads[t].control.Run? && w.threads[t].frames.Nil?
    ensures var w := Execute(Start(programs), schedule).w;
      t in w.rt.globals && w.rt.globals[t] == Globals(None, 0)
  {
    Safety(programs, schedule);
    var w := Execute(Start(programs), schedule).w;
    assert ThreadOk(w.rt, t, w.threads[t]);
  }

  // The assertion in __cxa_rethrow fails exactly for the exception being unwound; the call is also
  // refused when nothing is caught, and it does not return when no frame handles the exception.
  predicate RefusesRethrow(w: World, t: Tid)
    requires t in w.threads
    requires var stack := Catches(w.threads[t].frames); stack.Cons? ==> Typed(w.rt, stack.head)
  {
    var stack := Catches(w.threads[t].frames);
    || stack.Nil?
    || stack.head in Flying(w.threads[t])
    || !Handled(w.threads[t].frames, TypeOf(w.rt, stack.head))
  }

  lemma RethrowRefused(w: World, t: Tid)
    requires Inv(w) && t in w.threads && w.threads[t].pending.Idle? && w.threads[t].control == Run(Rethrow)
    ensures var stack := Catches(w.threads[t].frames); stack.Cons? ==> Typed(w.rt, stack.head)
    ensures Step(w, t).Halted? <==> RefusesRethrow(w, t)
  {
    var th := w.threads[t];
    var stack := Catches(th.frames);
    CaughtList.RethrowKeeps(w.rt, t, stack, Flying(th));
    if stack.Cons? {
      assert stack.head in Active(th);
      ActiveTyped(w, t, stack.head);
    }
    if MayRethrow(w.rt, t) {
      assert Typed(Abi.Rethrow(w.rt, t), stack.head);
      assert TypeOf(Abi.Rethrow(w.rt, t), stack.head) == TypeOf(w.rt, stack.head);
    }
  }

  // Why a program is stopped: it aborts, no frame handles what it throws, a rethrow is refused, or
  // an exception leaves a cleanup.
  ghost predicate MustHalt(w: World, t: Tid) {
    && t in w.threads && w.threads[t].pending.Idle?
    && var th := w.threads[t];
      match th.control
      case Run(Abort) => true
      case Run(Throw(ty)) => !Handled(th.frames, ty)
      case Run(ThrowFrom(src)) =>
        src in w.ptrs && Typed(w.rt, w.ptrs[src]) && !Handled(th.frames, TypeOf(w.rt, w.ptrs[src]))
      case Run(Rethrow) =>
        var stack := Catches(th.frames);
        (stack.Cons? ==> Typed(w.rt, stack.head)) && RefusesRethrow(w, t)
      case Run(_) => false
      case Unwind(_) => th.frames.Cons? && th.frames.head.InCleanup?
  }

  lemma LandingExists(rt: Runtime, t: Tid, th: Thread)
    requires ThreadOk(rt, t, th) && th.control.Unwind?
    ensures th.frames.Cons?
  {
    assert Lands(rt, th.control.e, th.frames);
  }

  lemma ReturnRuns(w: World, t: Tid)
    requires Moves(w, t) && w.threads[t].control == Run(Skip)
    ensures !StepReturn(w, t).Halted?
  {
    var frames := w.threads[t].frames;
    if frames.Cons? && frames.head.InCatch? {
      LeaveThread(w.rt, t, w.threads[t]);
    }
  }

  lemma UnwindRuns(w: World, t: Tid)
    requires Moves(w, t) && w.threads[t].control.Unwind?
    requires StepUnwind(w, t, w.threads[t].control.e).Halted?
    ensures w.threads[t].frames.Cons? && w.threads[t].frames.head.InCleanup?
  {
    var th := w.threads[t];
    LandingExists(w.rt, t, th);
    if th.frames.head.InCatch? {
      LeaveThread(w.rt, t, th);
    }
  }

  lemma ThrowHalts(w: World, t: Tid, ty: nat)
    requires Moves(w, t) && w.threads[t].control == Run(Throw(ty))
    ensures Step(w, t).Halted? <==> !Handled(w.threads[t].frames, ty)
  {
  }

  lemma DependentHalts(w: World, t: Tid, src: Handle)
    requires t in w.threads && t in w.rt.globals && src in w.ptrs && Fresh(w) !in w.rt.headers
    requires Shared(w.rt, w.ptrs[src]) && w.rt.headers[w.ptrs[src]].kind.Primary?
    ensures StepThrowFrom(w, t, src).Halted? <==> !Handled(w.threads[t].frames, TypeOf(w.rt, w.ptrs[src]))
  {
    var rt := Abi.ThrowDependent(w.rt, t, Fresh(w), w.ptrs[src]);
    assert Typed(rt, Fresh(w)) && TypeOf(rt, Fresh(w)) == TypeOf(w.rt, w.ptrs[src]);
  }

  lemma ThrowFromHalts(w: World, t: Tid, src: Handle)
    requires Inv(w) && t in w.threads && w.threads[t].pending.Idle? && w.threads[t].control == Run(ThrowFrom(src))
    ensures src in w.ptrs ==> Typed(w.rt, w.ptrs[src])
    ensures StepThrowFrom(w, t, src).Halted? <==> src in w.ptrs && !Handled(w.threads[t].frames, TypeOf(w.rt, w.ptrs[src]))
  {
    if src in w.ptrs {
      PointsAtLive(w, src);
      FreshUnknown(w);
      DependentHalts(w, t, src);
    }
  }

  lemma UnwindHalts(w: World, t: Tid)
    requires Moves(w, t) && w.threads[t].control.Unwind?
    ensures Step(w, t).Halted? <==> w.threads[t].frames.Cons? && w.threads[t].frames.head.InCleanup?
  {
    if Step(w, t).Halted? {
      UnwindRuns(w, t);
    }
  }

  lemma RaiseHalts(w: World, t: Tid, s: Stmt)
    requires Moves(w, t) && w.threads[t].control == Run(s) && (s.Throw? || s.ThrowFrom? || s.Rethrow?)
    ensures Step(w, t).Halted? <==> MustHalt(w, t) == true
  {
    if s.Throw? {
      ThrowHalts(w, t, s.ty);
    } else if s.ThrowFrom? {
      ThrowFromHalts(w, t, s.src);
      ThrowFromIsStep(w, t, s.src);
    } else {
      RethrowRefused(w, t);
    }
  }

  lemma OtherRuns(w: World, t: Tid, s: Stmt)
    requires t in w.threads && t in w.rt.globals
    requires !(s.Throw? || s.ThrowFrom? || s.Rethrow? || s.Skip? || s.Abort?)
    ensures !StepRun(w, t, s).Halted?
  {
  }

  lemma StepIsRun(w: World, t: Tid, s: Stmt)
    requires t in w.threads && t in w.rt.globals && w.threads[t].pending.Idle? && w.threads[t].control == Run(s)
    ensures Step(w, t) == StepRun(w, t, s)
    ensures s.Skip? ==> StepRun(w, t, s) == StepReturn(w, t)
    ensures s.Abort? ==> StepRun(w, t, s) == Halted
  {
  }

  // No other statement stops a run, but for an abort.
  lemma OtherHalts(w: World, t: Tid, s: Stmt)
    requires Moves(w, t) && w.threads[t].control == Run(s) && !(s.Throw? || s.ThrowFrom? || s.Rethrow?)
    ensures Step(w, t).Halted? <==> s.Abort?
  {
    StepIsRun(w, t, s);
    if s.Skip? {
      ReturnRuns(w, t);
    } else if !s.Abort? {
      OtherRuns(w, t, s);
    }
  }

  // Exactly when a run stops. The assertion in __cxa_end_catch never fails, and unwinding never
  // falls off the stack.
  lemma HaltsExactly(w: World, t: Tid)
    requires Inv(w)
    ensures Step(w, t).Halted? <==> MustHalt(w, t) == true
  {
    if t in w.threads && w.threads[t].pending.Idle? {
      match w.threads[t].control
      case Unwind(_) => UnwindHalts(w, t);
      case Run(s) =>
        if s.Throw? || s.ThrowFrom? || s.Rethrow? {
          RaiseHalts(w, t, s);
        } else {
          OtherHalts(w, t, s);
        }
    }
  }

  // ----- The release protocol without interference -----

  function Times(t: Tid, n: nat): List<Tid> {
    if n == 0 then Nil else Cons(t, Times(t, n - 1))
  }

  lemma LastReleaseRuns(w: World, t: Tid, e: Id)
    requires t in w.threads && t in w.rt.globals && Typed(w.rt, e) && w.threads[t].pending == ReleaseOf(w.rt, e)
    requires w.rt.headers[Real(w.rt.headers, e)].referenceCount == 1
    ensures Execute(w, Times(t, 2 + if w.rt.headers[e].kind.Dependent? then 1 else 0)) == Ran(w.(
      rt := Release(w.rt, e).0,
      threads := w.threads[t := w.threads[t].(pending := Idle)],
      destroyed := w.destroyed + [Real(w.rt.headers, e)]))
  {
    var dependent := w.rt.headers[e].kind.Dependent?;
    var w1 := Step(w, t).w;
    var w2 := Step(w1, t).w;
    assert Times(t, 1) == Cons(t, Nil) && Times(t, 2) == Cons(t, Times(t, 1));
    if dependent {
      var w3 := Step(w2, t).w;
      assert Times(t, 3) == Cons(t, Times(t, 2));
      assert Execute(w2, Times(t, 1)) == Ran(w3);
      assert w3.rt.headers == Release(w.rt, e).0.headers;
    } else {
      assert w2.rt.headers == Release(w.rt, e).0.headers;
    }
    assert Execute(w1, Times(t, if dependent then 2 else 1)) == Execute(w2, Times(t, if dependent then 1 else 0));
  }

  lemma EarlierReleaseRuns(w: World, t: Tid, e: Id)
    requires t in w.threads && t in w.rt.globals && Typed(w.rt, e) && w.threads[t].pending == ReleaseOf(w.rt, e)
    requires w.rt.headers[Real(w.rt.headers, e)].referenceCount > 1
    ensures Execute(w, Times(t, 1 + if w.rt.headers[e].kind.Dependent? then 1 else 0)) == Ran(w.(
      rt := Release(w.rt, e).0,
      threads := w.threads[t := w.threads[t].(pending := Idle)]))
  {
    var w1 := Step(w, t).w;
    assert Times(t, 1) == Cons(t, Nil);
    if w.rt.headers[e].kind.Dependent? {
      var w2 := Step(w1, t).w;
      assert Times(t, 2) == Cons(t, Times(t, 1));
      assert w2.rt.headers == Release(w.rt, e).0.headers;
      assert Execute(w1, Times(t, 1)) == Ran(w2);
    }
  }

  // Run alone, the pending steps of a thread amount to releaseException.
  lemma ReleaseRuns(w: World, t: Tid, e: Id)
    requires t in w.threads && t in w.rt.globals && Typed(w.rt, e) && w.threads[t].pending == ReleaseOf(w.rt, e)
    requires Shared(w.rt, Real(w.rt.headers, e))
    ensures var n := (if w.rt.headers[Real(w.rt.headers, e)].referenceCount == 1 then 2 else 1)
                     + (if w.rt.headers[e].kind.Dependent? then 1 else 0);
      var (rt, destroyed) := Release(w.rt, e);
      Execute(w, Times(t, n)) == Ran(w.(
        rt := rt,
        threads := w.threads[t := w.threads[t].(pending := Idle)],
        destroyed := w.destroyed + if destroyed then [Real(w.rt.headers, e)] else []))
  {
    if w.rt.headers[Real(w.rt.headers, e)].referenceCount == 1 {
      LastReleaseRuns(w, t, e);
    } else {
      EarlierReleaseRuns(w, t, e);
      assert w.destroyed + [] == w.destroyed;
    }
  }
}
