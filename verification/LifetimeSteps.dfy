// Every step of every thread keeps the invariant.
//
// `== true` after a predicate keeps Dafny from taking it apart into its conjuncts, which is slow.
module LifetimeSteps {
  import opened Lists
  import opened Abi
  import opened CaughtList
  import opened Machine
  import opened Ledger
  import opened Lifetime

  // ----- Framing -----

  // Nothing that the thread owning x can see of x has changed.
  predicate Calm(rt: Runtime, rt': Runtime, x: Id) {
    && x in rt.headers && x in rt'.headers
    && rt'.headers[x].next == rt.headers[x].next
    && rt'.headers[x].handlerCount == rt.headers[x].handlerCount
    && Typed(rt, x) && Typed(rt', x) && TypeOf(rt', x) == TypeOf(rt, x)
  }

  lemma {:induction false} AwaitedFrame(rt: Runtime, rt': Runtime, frames: List<Frame>)
    requires Awaited(rt, frames)
    requires forall e :: e in Elements(Resuming(frames)) ==> Typed(rt, e) && Typed(rt', e) && TypeOf(rt', e) == TypeOf(rt, e)
    ensures Awaited(rt', frames)
  {
    match frames
    case Nil =>
    case Cons(f, rest) => AwaitedFrame(rt, rt', rest);
  }

  lemma ThreadFrame(rt: Runtime, rt': Runtime, t: Tid, th: Thread)
    requires ThreadOk(rt, t, th)
    requires t in rt'.globals && rt'.globals[t] == rt.globals[t]
    requires forall x :: x in Active(th) ==> Calm(rt, rt', x)
    ensures ThreadOk(rt', t, th)
  {
    forall x | x in Flying(th) || x in Elements(Catches(th.frames)) || x in Elements(Resuming(th.frames)) ensures Calm(rt, rt', x) {
      assert x in Active(th);
    }
    RepresentsFrame(rt, rt', t, Catches(th.frames), Flying(th));
    AwaitedFrame(rt, rt', th.frames);
  }

  // ----- Views of updated states -----

  lemma PutThreads(threads: map<Tid, Thread>, t: Tid, th: Thread)
    ensures Actives(threads[t := th]) == Actives(threads)[t := Active(th)]
    ensures Pendings(threads[t := th]) == Pendings(threads)[t := th.pending]
    ensures t in threads && Active(th) == Active(threads[t]) ==> Actives(threads[t := th]) == Actives(threads)
    ensures t in threads && th.pending == threads[t].pending ==> Pendings(threads[t := th]) == Pendings(threads)
  {
  }

  lemma PutHeader(headers: map<Id, Header>, e: Id, h: Header)
    ensures Accounts(headers[e := h]) == Accounts(headers)[e := Account(h.kind, h.referenceCount)]
  {
  }

  lemma DropHeader(headers: map<Id, Header>, e: Id)
    ensures Accounts(headers - {e}) == Accounts(headers) - {e}
  {
  }

  // Thread t, whose throws are `mine`, leaves alone what other threads see of their headers.
  ghost predicate OnlyRuntime(rt: Runtime, rt': Runtime, t: Tid, mine: set<Id>) {
    && t in rt.globals && t in rt'.globals && rt'.globals == rt.globals[t := rt'.globals[t]]
    && (forall e :: e in rt.headers && e in rt'.headers ==>
        && rt'.headers[e].kind == rt.headers[e].kind
        && (e !in mine ==>
            rt'.headers[e].next == rt.headers[e].next && rt'.headers[e].handlerCount == rt.headers[e].handlerCount))
  }

  ghost predicate OnlyThread(w: World, w': World, t: Tid) {
    && t in w.threads && t in w'.threads && w'.threads == w.threads[t := w'.threads[t]]
    && OnlyRuntime(w.rt, w'.rt, t, Active(w.threads[t]))
  }

  lemma CalmOther(w: World, w': World, t: Tid, u: Tid, x: Id)
    requires OnlyThread(w, w', t) && u in w.threads && u != t && x in Active(w.threads[u])
    requires Apart(View(w)) && ReferentsOk(View(w)) && ReferentsOk(View(w'))
    ensures Calm(w.rt, w'.rt, x)
  {
    var v, v' := View(w), View(w');
    assert Throws(v, u, x) && Throws(v', u, x);
    assert Grounded(v, x) && Grounded(v', x);
    assert Owns(v, u, x);
    assert x in Active(w.threads[t]) ==> Throws(v, t, x) && Owns(v, t, x);
  }

  lemma OtherThread(w: World, w': World, t: Tid, u: Tid)
    requires OnlyThread(w, w', t) && u in w.threads && u != t && ThreadOk(w.rt, u, w.threads[u])
    requires Apart(View(w)) && ReferentsOk(View(w)) && ReferentsOk(View(w'))
    ensures ThreadOk(w'.rt, u, w'.threads[u])
  {
    forall x | x in Active(w.threads[u]) ensures Calm(w.rt, w'.rt, x) {
      CalmOther(w, w', t, u, x);
    }
    ThreadFrame(w.rt, w'.rt, u, w.threads[u]);
  }

  lemma ThreadsStep(w: World, w': World, t: Tid)
    requires Inv(w) && OnlyThread(w, w', t) && ThreadOk(w'.rt, t, w'.threads[t])
    requires Balanced(View(w')) == true
    ensures Inv(w') == true
  {
    forall u | u in w'.threads ensures ThreadOk(w'.rt, u, w'.threads[u]) {
      if u != t {
        OtherThread(w, w', t, u);
      }
    }
  }

  // ----- The state of the thread that moves -----

  ghost predicate Moves(w: World, t: Tid) {
    Inv(w) && t in w.threads && w.threads[t].pending.Idle?
  }

  // The runtime changes only in what concerns the caught list of thread t.
  ghost predicate OnlyList(rt: Runtime, rt': Runtime, t: Tid, mine: set<Id>) {
    && rt'.headers.Keys == rt.headers.Keys
    && t in rt.globals && t in rt'.globals && rt'.globals == rt.globals[t := rt'.globals[t]]
    && (forall e :: e in rt.headers ==>
        && rt'.headers[e].kind == rt.headers[e].kind
        && rt'.headers[e].referenceCount == rt.headers[e].referenceCount
        && (e !in mine ==> rt'.headers[e] == rt.headers[e]))
  }

  lemma SameView(w: World, t: Tid, rt': Runtime, th: Thread)
    requires t in w.threads && th.pending == w.threads[t].pending && Active(th) == Active(w.threads[t])
    requires OnlyList(w.rt, rt', t, Active(th))
    ensures View(Put(w.(rt := rt'), t, th)) == View(w)
  {
    PutThreads(w.threads, t, th);
    assert Accounts(rt'.headers) == Accounts(w.rt.headers);
  }

  // A step that changes nothing but the caught list, the control and the frames of its thread.
  lemma LocalKeeps(w: World, t: Tid, rt': Runtime, th: Thread)
    requires Moves(w, t) && th.pending.Idle? && Active(th) == Active(w.threads[t])
    requires OnlyList(w.rt, rt', t, Active(th)) && ThreadOk(rt', t, th)
    ensures Inv(Put(w.(rt := rt'), t, th))
  {
    SameView(w, t, rt', th);
    ThreadsStep(w, Put(w.(rt := rt'), t, th), t);
  }

  lemma Quiet(w: World, t: Tid, th: Thread)
    requires Moves(w, t) && th.pending.Idle? && Active(th) == Active(w.threads[t]) && ThreadOk(w.rt, t, th)
    ensures Inv(Put(w, t, th))
  {
    LocalKeeps(w, t, w.rt, th);
    assert w.(rt := w.rt) == w;
  }

  lemma ReturnKeeps(w: World, t: Tid)
    requires Moves(w, t) && w.threads[t].control == Run(Skip)
    requires w.threads[t].frames.Cons? && !w.threads[t].frames.head.InCatch?
    ensures var o := StepReturn(w, t); o.Ran? && Inv(o.w) == true
  {
    var o := StepReturn(w, t);
    Quiet(w, t, o.w.threads[t]);
  }

  lemma EnterKeeps(w: World, t: Tid, th: Thread)
    requires Moves(w, t) && w.threads[t].control.Run? && th.pending.Idle? && th.control.Run? && th.frames.Cons?
    requires th.frames.tail == w.threads[t].frames && !th.frames.head.InCatch? && !th.frames.head.InCleanup?
    ensures Inv(Put(w, t, th))
  {
    Quiet(w, t, th);
  }

  // Unwinding past a frame that does not stop it.
  lemma PassKeeps(w: World, t: Tid)
    requires Moves(w, t) && w.threads[t].control.Unwind? && w.threads[t].frames.Cons?
    requires var e, f := w.threads[t].control.e, w.threads[t].frames.head;
      f.AndThen? || f.Armed? || (f.InTry? && (Typed(w.rt, e) ==> !Matches(f.clause, TypeOf(w.rt, e))))
    ensures var o := StepUnwind(w, t, w.threads[t].control.e); o.Ran? && Inv(o.w) == true
  {
    var o := StepUnwind(w, t, w.threads[t].control.e);
    Quiet(w, t, o.w.threads[t]);
  }

  // The headers in the caught list and in flight keep what matters for landing.
  lemma {:induction false} LandsFrame(rt: Runtime, rt': Runtime, t: Tid, mine: set<Id>, frames: List<Frame>)
    requires Awaited(rt, frames) && OnlyList(rt, rt', t, mine)
    ensures Awaited(rt', frames)
  {
    match frames
    case Nil =>
    case Cons(f, rest) => LandsFrame(rt, rt', t, mine, rest);
  }

  lemma ActiveTyped(w: World, t: Tid, x: Id)
    requires ReferentsOk(View(w)) && t in w.threads && x in Active(w.threads[t])
    ensures Typed(w.rt, x)
  {
    assert Throws(View(w), t, x);
    assert Grounded(View(w), x);
  }

  // A handler that matches catches the exception in flight.
  lemma CatchThread(rt: Runtime, t: Tid, th: Thread, rt': Runtime, th': Thread)
    requires ThreadOk(rt, t, th) && th.control.Unwind? && th.frames.Cons? && th.frames.head.InTry?
    requires rt' == BeginCatch(rt, t, th.control.e)
    requires th' == th.(control := Run(th.frames.head.handler), frames := Cons(InCatch(th.control.e), th.frames.tail))
    ensures ThreadOk(rt', t, th') && Active(th') == Active(th) && OnlyList(rt, rt', t, Active(th))
  {
    BeginCatchPushes(rt, t, Catches(th.frames.tail), Flying(th), th.control.e);
    assert Flying(th) - {th.control.e} == Flying(th');
    LandsFrame(rt, rt', t, Active(th), th.frames.tail);
    assert Active(th') == Active(th);
  }

  lemma CatchKeeps(w: World, t: Tid)
    requires Moves(w, t) && w.threads[t].control.Unwind? && w.threads[t].frames.Cons? && w.threads[t].frames.head.InTry?
    requires Typed(w.rt, w.threads[t].control.e)
    requires Matches(w.threads[t].frames.head.clause, TypeOf(w.rt, w.threads[t].control.e))
    ensures var o := StepUnwind(w, t, w.threads[t].control.e); o.Ran? && Inv(o.w) == true
  {
    var o := StepUnwind(w, t, w.threads[t].control.e);
    CatchThread(w.rt, t, w.threads[t], o.w.rt, o.w.threads[t]);
    LocalKeeps(w, t, o.w.rt, o.w.threads[t]);
  }

  lemma RethrowThread(rt: Runtime, t: Tid, th: Thread)
    requires ThreadOk(rt, t, th) && th.control.Run?
    ensures MayRethrow(rt, t) ==>
      var e, rt' := rt.globals[t].caught.value, Abi.Rethrow(rt, t);
      && e in Active(th) && OnlyList(rt, rt', t, Active(th))
      && Active(th.(control := Unwind(e))) == Active(th)
      && (Lands(rt', e, th.frames) ==> ThreadOk(rt', t, th.(control := Unwind(e))))
  {
    CaughtList.RethrowKeeps(rt, t, Catches(th.frames), Flying(th));
    if MayRethrow(rt, t) {
      var e, rt' := rt.globals[t].caught.value, Abi.Rethrow(rt, t);
      var th' := th.(control := Unwind(e));
      assert Flying(th') == Flying(th) + {e};
      assert Active(th') == Active(th);
      LandsFrame(rt, rt', t, Active(th), th.frames);
    }
  }

  lemma RethrowKeeps(w: World, t: Tid)
    requires Moves(w, t) && w.threads[t].control == Run(Rethrow)
    ensures var o := StepRethrow(w, t); !o.Fault? && (o.Ran? ==> Inv(o.w) == true)
  {
    var th := w.threads[t];
    RethrowThread(w.rt, t, th);
    if MayRethrow(w.rt, t) {
      var e, rt' := w.rt.globals[t].caught.value, Abi.Rethrow(w.rt, t);
      ActiveTyped(w, t, e);
      assert Typed(rt', e);
      if Handled(th.frames, TypeOf(rt', e)) {
        LocalKeeps(w, t, rt', th.(control := Unwind(e)));
      }
    }
  }

  // ----- Leaving a catch block -----

  lemma LeaveThread(rt: Runtime, t: Tid, th: Thread)
    requires ThreadOk(rt, t, th) && th.frames.Cons? && th.frames.head.InCatch? && th.pending.Idle?
    ensures HasCurrent(rt, t)
    ensures var (rt', release) := EndCatch(rt, t);
      var e, rest := th.frames.head.e, th.frames.tail;
      && Current(rt, t) == e
      && OnlyList(rt, rt', t, Active(th))
      && forall pending :: var th' := th.(frames := rest, pending := pending);
        ThreadOk(rt', t, th') && Active(th') == if release then Active(th) - {e} else Active(th)
  {
    var (rt', release) := EndCatch(rt, t);
    var e, rest := th.frames.head.e, th.frames.tail;
    EndCatchPops(rt, t, Catches(th.frames), Flying(th));
    LandsFrame(rt, rt', t, Active(th), rest);
    forall pending ensures var th' := th.(frames := rest, pending := pending);
      ThreadOk(rt', t, th') && Active(th') == if release then Active(th) - {e} else Active(th)
    {
      var th' := th.(frames := rest, pending := pending);
      assert Flying(th') == Flying(th);
    }
  }

  lemma FinishView(w: World, t: Tid, rt': Runtime, th: Thread, e: Id)
    requires t in w.threads && e in w.rt.headers && Active(th) == Active(w.threads[t]) - {e}
    requires w.threads[t].pending.Idle? && th.pending == ReleaseOf(w.rt, e)
    requires OnlyList(w.rt, rt', t, Active(w.threads[t]))
    ensures View(Put(w.(rt := rt'), t, th)) == Finish(View(w), t, e)
  {
    PutThreads(w.threads, t, th);
    assert Accounts(rt'.headers) == Accounts(w.rt.headers);
  }

  lemma LeaveKeeps(w: World, t: Tid)
    requires Moves(w, t) && w.threads[t].frames.Cons? && w.threads[t].frames.head.InCatch?
    ensures var o := LeaveCatch(w, t, w.threads[t].frames.tail); o.Ran? && Inv(o.w) == true
  {
    var th := w.threads[t];
    LeaveThread(w.rt, t, th);
    var o := LeaveCatch(w, t, th.frames.tail);
    var e := th.frames.head.e;
    if EndCatch(w.rt, t).1 {
      assert Throws(View(w), t, e);
      FinishBalanced(View(w), t, e);
      FinishView(w, t, o.w.rt, o.w.threads[t], e);
      ThreadsStep(w, o.w, t);
    } else {
      LocalKeeps(w, t, o.w.rt, o.w.threads[t]);
    }
  }

  // ----- Throwing -----

  lemma ThrowThread(rt: Runtime, t: Tid, th: Thread, e: Id, ty: nat)
    requires ThreadOk(rt, t, th) && th.control.Run? && e !in rt.headers
    requires forall x :: x in Active(th) ==> Typed(rt, x)
    ensures var rt', th' := Abi.Throw(rt, t, e, ty), th.(control := Unwind(e));
      && OnlyRuntime(rt, rt', t, Active(th))
      && Typed(rt', e) && Active(th') == Active(th) + {e}
      && (Handled(th.frames, TypeOf(rt', e)) ==> ThreadOk(rt', t, th'))
  {
    var rt', th' := Abi.Throw(rt, t, e, ty), th.(control := Unwind(e));
    ThrowKeeps(rt, t, Catches(th.frames), Flying(th), e, ty);
    assert Flying(th') == Flying(th) + {e};
    forall x | x in Elements(Resuming(th.frames)) ensures Typed(rt, x) { assert x in Active(th); }
    AwaitedFrame(rt, rt', th.frames);
    assert forall x :: x in Flying(th) ==> x in rt.headers;
  }

  lemma ThrowView(w: World, t: Tid, ty: nat, th: Thread)
    requires t in w.threads && t in w.rt.globals && th.pending.Idle? && w.threads[t].pending.Idle?
    requires Active(th) == Active(w.threads[t]) + {Fresh(w)}
    ensures View(Put(w.(births := w.births + [Birth(t, true)], rt := Abi.Throw(w.rt, t, Fresh(w), ty)), t, th))
      == Ledger.Throw(View(w), t, ty)
  {
    PutThreads(w.threads, t, th);
    PutHeader(w.rt.headers, Fresh(w), Header(Primary(ty), 0, 1, None));
  }

  lemma FreshUnknown(w: World)
    requires BirthsOk(View(w))
    ensures Fresh(w) !in w.rt.headers
  {
    assert Fresh(w) in w.rt.headers ==> Fresh(w) in View(w).accounts;
  }

  lemma StepThrowKeeps(w: World, t: Tid, ty: nat)
    requires Moves(w, t) && w.threads[t].control == Run(Stmt.Throw(ty))
    ensures var o := StepThrow(w, t, ty); !o.Fault? && (o.Ran? ==> Inv(o.w) == true)
  {
    var th, e := w.threads[t], Fresh(w);
    forall x | x in Active(th) ensures Typed(w.rt, x) { ActiveTyped(w, t, x); }
    FreshUnknown(w);
    ThrowThread(w.rt, t, th, e, ty);
    var o := StepThrow(w, t, ty);
    if o.Ran? {
      ThrowView(w, t, ty, o.w.threads[t]);
      ThrowBalanced(View(w), t, ty);
      ThreadsStep(w, o.w, t);
    }
  }

  lemma ThrowFromThread(rt: Runtime, t: Tid, th: Thread, d: Id, p: Id)
    requires ThreadOk(rt, t, th) && th.control.Run? && d !in rt.headers && p in rt.headers && rt.headers[p].kind.Primary?
    requires forall x :: x in Active(th) ==> Typed(rt, x)
    ensures var rt', th' := Abi.ThrowDependent(rt, t, d, p), th.(control := Unwind(d));
      && OnlyRuntime(rt, rt', t, Active(th))
      && Typed(rt', d) && Active(th') == Active(th) + {d}
      && (Handled(th.frames, TypeOf(rt', d)) ==> ThreadOk(rt', t, th'))
  {
    var rt', th' := Abi.ThrowDependent(rt, t, d, p), th.(control := Unwind(d));
    ThrowDependentKeeps(rt, t, Catches(th.frames), Flying(th), d, p);
    assert Flying(th') == Flying(th) + {d};
    forall x | x in Elements(Resuming(th.frames)) ensures Typed(rt, x) { assert x in Active(th); }
    AwaitedFrame(rt, rt', th.frames);
    assert forall x :: x in Flying(th) ==> x in rt.headers;
  }

  lemma ThrowFromView(w: World, t: Tid, p: Id, th: Thread)
    requires t in w.threads && t in w.rt.globals && p in w.rt.headers && th.pending.Idle? && w.threads[t].pending.Idle?
    requires Active(th) == Active(w.threads[t]) + {Fresh(w)}
    ensures View(Put(w.(births := w.births + [Birth(t, false)], rt := Abi.ThrowDependent(w.rt, t, Fresh(w), p)), t, th))
      == Ledger.ThrowDependent(View(w), t, p)
  {
    PutThreads(w.threads, t, th);
    var headers := w.rt.headers[p := AddReference(w.rt.headers[p], 1)];
    PutHeader(w.rt.headers, p, AddReference(w.rt.headers[p], 1));
    PutHeader(headers, Fresh(w), Header(Dependent(p), 0, 0, None));
  }

  // An exception_ptr variable that is not null points to a live primary exception.
  lemma PointsAtLive(w: World, h: Handle)
    requires Balanced(View(w)) && h in w.ptrs
    ensures Shared(w.rt, w.ptrs[h]) && w.rt.headers[w.ptrs[h]].kind.Primary?
  {
    var v := View(w);
    assert IsPrimary(v, v.ptrs[h]);
    Held(v, v.ptrs[h], InPtr(h));
  }

  // So does a thrown exception.
  lemma ThrowsLive(w: World, t: Tid, x: Id)
    requires Balanced(View(w)) && t in w.threads && x in Active(w.threads[t])
    ensures Typed(w.rt, x) && Shared(w.rt, Real(w.rt.headers, x))
  {
    var v := View(w);
    assert Throws(v, t, x);
    assert Grounded(v, x);
    Held(v, Base(v, x), InThrow(t, x));
  }

  lemma StepThrowFromKeeps(w: World, t: Tid, src: Handle)
    requires Moves(w, t) && w.threads[t].control == Run(ThrowFrom(src))
    ensures var o := StepThrowFrom(w, t, src); !o.Fault? && (o.Ran? ==> Inv(o.w) == true)
  {
    var th, d := w.threads[t], Fresh(w);
    if src !in w.ptrs {
      Quiet(w, t, th.(control := Run(Skip)));
    } else {
      var p := w.ptrs[src];
      PointsAtLive(w, src);
      forall x | x in Active(th) ensures Typed(w.rt, x) { ActiveTyped(w, t, x); }
      FreshUnknown(w);
      ThrowFromThread(w.rt, t, th, d, p);
      var o := StepThrowFrom(w, t, src);
      if o.Ran? {
        ThrowFromView(w, t, p, o.w.threads[t]);
        ThrowDependentBalanced(View(w), t, p);
        ThreadsStep(w, o.w, t);
      }
    }
  }

  // ----- Reference counts -----

  // No surviving header changes anything but its count.
  ghost predicate OnlyCounts(rt: Runtime, rt': Runtime) {
    && rt'.globals == rt.globals
    && (forall e :: e in rt.headers && e in rt'.headers ==>
        rt'.headers[e] == rt.headers[e].(referenceCount := rt'.headers[e].referenceCount))
  }

  lemma CalmCounts(w: World, w': World, u: Tid, x: Id)
    requires OnlyCounts(w.rt, w'.rt) && ReferentsOk(View(w)) && ReferentsOk(View(w'))
    requires u in w.threads && u in w'.threads && x in Active(w.threads[u]) && x in Active(w'.threads[u])
    ensures Calm(w.rt, w'.rt, x)
  {
    ActiveTyped(w, u, x);
    ActiveTyped(w', u, x);
  }

  lemma CountsThread(w: World, w': World, u: Tid)
    requires OnlyCounts(w.rt, w'.rt) && ReferentsOk(View(w)) && ReferentsOk(View(w'))
    requires u in w.threads && u in w'.threads && ThreadOk(w.rt, u, w'.threads[u]) && Active(w'.threads[u]) == Active(w.threads[u])
    ensures ThreadOk(w'.rt, u, w'.threads[u])
  {
    forall x | x in Active(w'.threads[u]) ensures Calm(w.rt, w'.rt, x) {
      CalmCounts(w, w', u, x);
    }
    ThreadFrame(w.rt, w'.rt, u, w'.threads[u]);
  }

  // w' differs from w in counts, in headers that come or go, and in what thread t has pending.
  ghost predicate CountsStep(w: World, w': World, t: Tid) {
    && OnlyCounts(w.rt, w'.rt)
    && t in w.threads && t in w'.threads && w'.threads == w.threads[t := w'.threads[t]]
    && w'.threads[t].frames == w.threads[t].frames
    && (w'.threads[t].control == w.threads[t].control || (w.threads[t].control.Run? && w'.threads[t].control.Run?))
  }

  lemma CountsKeep(w: World, w': World, t: Tid)
    requires Inv(w) && CountsStep(w, w', t) == true && Balanced(View(w')) == true
    ensures Inv(w') == true
  {
    forall u | u in w'.threads ensures ThreadOk(w'.rt, u, w'.threads[u]) {
      SameFrames(w.rt, u, w.threads[u], w'.threads[u]);
      CountsThread(w, w', u);
    }
  }

  lemma SameFrames(rt: Runtime, u: Tid, th: Thread, th': Thread)
    requires ThreadOk(rt, u, th) && th'.frames == th.frames
    requires th'.control == th.control || (th.control.Run? && th'.control.Run?)
    ensures ThreadOk(rt, u, th') && Active(th') == Active(th)
  {
  }

  lemma AssignView(w: World, t: Tid, dst: Handle, value: Option<Id>)
    requires t in w.threads && w.threads[t].pending.Idle? && w.threads[t].control.Run?
    requires value.Some? ==> value.value in w.rt.headers
    ensures var w0 := if value.Some? then w.(rt := Retain(w.rt, value.value)) else w;
      View(Machine.Assign(w0, t, dst, value)) == Ledger.Assign(View(w), t, dst, value)
  {
    PutThreads(w.threads, t, w.threads[t].(control := Run(Skip), pending := if dst in w.ptrs then Dec(w.ptrs[dst], None) else Idle));
    if value.Some? {
      PutHeader(w.rt.headers, value.value, AddReference(w.rt.headers[value.value], 1));
    }
  }

  lemma AssignCounts(w: World, t: Tid, dst: Handle, value: Option<Id>)
    requires t in w.threads && w.threads[t].control.Run? && (value.Some? ==> value.value in w.rt.headers)
    ensures var w0 := if value.Some? then w.(rt := Retain(w.rt, value.value)) else w;
      CountsStep(w, Machine.Assign(w0, t, dst, value), t)
  {
  }

  lemma AssignNullKeeps(w: World, t: Tid, dst: Handle)
    requires Moves(w, t) && w.threads[t].control.Run?
    ensures Inv(Machine.Assign(w, t, dst, None)) == true
  {
    AssignView(w, t, dst, None);
    AssignCounts(w, t, dst, None);
    AssignBalanced(View(w), t, dst, None);
    CountsKeep(w, Machine.Assign(w, t, dst, None), t);
  }

  lemma AssignKeeps(w: World, t: Tid, dst: Handle, p: Id)
    requires Moves(w, t) && w.threads[t].control.Run?
    requires Shared(w.rt, p) && w.rt.headers[p].kind.Primary?
    ensures Inv(Machine.Assign(w.(rt := Retain(w.rt, p)), t, dst, Some(p))) == true
  {
    AssignView(w, t, dst, Some(p));
    AssignCounts(w, t, dst, Some(p));
    AssignBalanced(View(w), t, dst, Some(p));
    CountsKeep(w, Machine.Assign(w.(rt := Retain(w.rt, p)), t, dst, Some(p)), t);
  }

  lemma StepCaptureKeeps(w: World, t: Tid, dst: Handle)
    requires Moves(w, t) && w.threads[t].control == Run(Capture(dst))
    ensures var o := StepCapture(w, t, dst); o.Ran? && Inv(o.w) == true
  {
    var th := w.threads[t];
    if w.rt.globals[t].caught.None? {
      AssignNullKeeps(w, t, dst);
    } else {
      RunsExact(Catches(th.frames));
      var e := w.rt.globals[t].caught.value;
      assert e in Active(th);
      ThrowsLive(w, t, e);
      AssignKeeps(w, t, dst, Real(w.rt.headers, e));
    }
  }

  lemma StepCopyKeeps(w: World, t: Tid, dst: Handle, src: Handle)
    requires Moves(w, t) && w.threads[t].control == Run(Copy(dst, src))
    ensures var o := StepCopy(w, t, dst, src); o.Ran? && Inv(o.w) == true
  {
    if src in w.ptrs {
      PointsAtLive(w, src);
      AssignKeeps(w, t, dst, w.ptrs[src]);
    } else {
      AssignNullKeeps(w, t, dst);
    }
  }

  lemma MakeView(w: World, t: Tid, dst: Handle, ty: nat)
    requires t in w.threads && w.threads[t].pending.Idle? && w.threads[t].control.Run?
    ensures View(StepMake(w, t, dst, ty).w) == Ledger.Make(View(w), t, dst, ty)
  {
    var headers := w.rt.headers[Fresh(w) := Header(Primary(ty), 0, 0, None)];
    PutThreads(w.threads, t, StepMake(w, t, dst, ty).w.threads[t]);
    PutHeader(w.rt.headers, Fresh(w), Header(Primary(ty), 0, 0, None));
    PutHeader(headers, Fresh(w), AddReference(headers[Fresh(w)], 1));
  }

  lemma MakeCounts(w: World, t: Tid, dst: Handle, ty: nat)
    requires t in w.threads && w.threads[t].control.Run? && Fresh(w) !in w.rt.headers
    ensures CountsStep(w, StepMake(w, t, dst, ty).w, t)
  {
  }

  lemma StepMakeKeeps(w: World, t: Tid, dst: Handle, ty: nat)
    requires Moves(w, t) && w.threads[t].control == Run(Stmt.Make(dst, ty))
    ensures var o := StepMake(w, t, dst, ty); o.Ran? && Inv(o.w) == true
  {
    MakeView(w, t, dst, ty);
    MakeBalanced(View(w), t, dst, ty);
    FreshUnknown(w);
    MakeCounts(w, t, dst, ty);
    CountsKeep(w, StepMake(w, t, dst, ty).w, t);
  }

  lemma DecView(w: World, t: Tid)
    requires t in w.threads && w.threads[t].pending.Dec? && Shared(w.rt, w.threads[t].pending.p)
    ensures View(StepRelease(w, t).w) == Decrement(View(w), t)
  {
    var p := w.threads[t].pending.p;
    PutThreads(w.threads, t, StepRelease(w, t).w.threads[t]);
    PutHeader(w.rt.headers, p, AddReference(w.rt.headers[p], -1));
  }

  lemma FreeView(w: World, t: Tid)
    requires t in w.threads && w.threads[t].pending.Free? && w.threads[t].pending.p in w.rt.headers
    ensures View(StepRelease(w, t).w) == Destroy(View(w), t)
  {
    PutThreads(w.threads, t, StepRelease(w, t).w.threads[t]);
    DropHeader(w.rt.headers, w.threads[t].pending.p);
  }

  lemma DropView(w: World, t: Tid)
    requires t in w.threads && w.threads[t].pending.Drop? && w.threads[t].pending.d in w.rt.headers
    ensures View(StepRelease(w, t).w) == Discard(View(w), t)
  {
    PutThreads(w.threads, t, StepRelease(w, t).w.threads[t]);
    DropHeader(w.rt.headers, w.threads[t].pending.d);
  }

  lemma ReleaseCounts(w: World, t: Tid)
    requires t in w.threads && !w.threads[t].pending.Idle?
    ensures var o := StepRelease(w, t); o.Ran? ==> CountsStep(w, o.w, t) == true
  {
  }

  lemma DecBalanced(w: World, t: Tid)
    requires Balanced(View(w)) && t in w.threads && w.threads[t].pending.Dec?
    ensures var o := StepRelease(w, t); o.Ran? && Balanced(View(o.w)) == true
  {
    DecrementBalanced(View(w), t, w.threads[t].pending.p);
    DecView(w, t);
  }

  lemma FreeBalanced(w: World, t: Tid)
    requires Balanced(View(w)) && t in w.threads && w.threads[t].pending.Free?
    ensures var o := StepRelease(w, t); o.Ran? && Balanced(View(o.w)) == true
  {
    DestroyBalanced(View(w), t, w.threads[t].pending.p);
    FreeView(w, t);
  }

  lemma DropBalanced(w: World, t: Tid)
    requires Balanced(View(w)) && t in w.threads && w.threads[t].pending.Drop?
    ensures var o := StepRelease(w, t); o.Ran? && Balanced(View(o.w)) == true
  {
    var b, d := View(w), w.threads[t].pending.d;
    assert b.pending[t] == Drop(d);
    DiscardBalanced(b, t, d);
    assert d in w.rt.headers;
    DropView(w, t);
  }

  lemma StepReleaseKeeps(w: World, t: Tid)
    requires Inv(w) && t in w.threads && !w.threads[t].pending.Idle?
    ensures var o := StepRelease(w, t); o.Ran? && Inv(o.w) == true
  {
    match w.threads[t].pending {
      case Dec(_, _) => DecBalanced(w, t);
      case Free(_, _) => FreeBalanced(w, t);
      case Drop(_) => DropBalanced(w, t);
    }
    ReleaseCounts(w, t);
    CountsKeep(w, StepRelease(w, t).w, t);
  }

  // ----- All steps -----

  lemma StepFlowKeeps(w: World, t: Tid, s: Stmt)
    requires Moves(w, t) && w.threads[t].control == Run(s)
    requires s.Skip? || s.Abort? || s.Then? || s.Try? || s.Guarded?
    ensures var o := StepRun(w, t, s); !o.Fault? && (o.Ran? ==> Inv(o.w) == true)
  {
    var th := w.threads[t];
    match s
    case Then(a, b) => EnterKeeps(w, t, th.(control := Run(a), frames := Cons(AndThen(b), th.frames)));
    case Try(b, c, h) => EnterKeeps(w, t, th.(control := Run(b), frames := Cons(InTry(c, h), th.frames)));
    case Guarded(b, c) => EnterKeeps(w, t, th.(control := Run(b), frames := Cons(Armed(c), th.frames)));
    case Abort =>
    case Skip =>
      if th.frames.Cons? {
        if th.frames.head.InCatch? { LeaveKeeps(w, t); } else { ReturnKeeps(w, t); }
      }
  }

  lemma ThrowFromIsStep(w: World, t: Tid, src: Handle)
    requires t in w.threads && t in w.rt.globals
    ensures StepRun(w, t, ThrowFrom(src)) == StepThrowFrom(w, t, src)
  {
  }

  lemma ThrowFromKeeps(w: World, t: Tid, src: Handle)
    requires Moves(w, t) && w.threads[t].control == Run(ThrowFrom(src))
    ensures var o := StepRun(w, t, ThrowFrom(src)); !o.Fault? && (o.Ran? ==> Inv(o.w) == true)
  {
    var o := StepThrowFrom(w, t, src);
    StepThrowFromKeeps(w, t, src);
    ThrowFromIsStep(w, t, src);
    assert o.Ran? ==> Inv(o.w) == true;
  }

  lemma StepRaiseKeeps(w: World, t: Tid, s: Stmt)
    requires Moves(w, t) && w.threads[t].control == Run(s)
    requires s.Throw? || s.Rethrow? || s.ThrowFrom?
    ensures var o := StepRun(w, t, s); !o.Fault? && (o.Ran? ==> Inv(o.w) == true)
  {
    if s.Throw? {
      StepThrowKeeps(w, t, s.ty);
    } else if s.Rethrow? {
      RethrowKeeps(w, t);
    } else {
      ThrowFromKeeps(w, t, s.src);
    }
  }

  lemma StepPointerKeeps(w: World, t: Tid, s: Stmt)
    requires Moves(w, t) && w.threads[t].control == Run(s)
    requires s.Capture? || s.Copy? || s.Make? || s.Reset?
    ensures var o := StepRun(w, t, s); !o.Fault? && (o.Ran? ==> Inv(o.w) == true)
  {
    if s.Capture? {
      StepCaptureKeeps(w, t, s.dst);
    } else if s.Copy? {
      StepCopyKeeps(w, t, s.dst, s.src);
    } else if s.Make? {
      StepMakeKeeps(w, t, s.dst, s.ty);
    } else {
      AssignNullKeeps(w, t, s.dst);
    }
  }

  lemma StepRunKeeps(w: World, t: Tid, s: Stmt)
    requires Moves(w, t) && w.threads[t].control == Run(s)
    ensures var o := StepRun(w, t, s); !o.Fault? && (o.Ran? ==> Inv(o.w) == true)
  {
    if s.Throw? || s.Rethrow? || s.ThrowFrom? {
      StepRaiseKeeps(w, t, s);
    } else if s.Capture? || s.Copy? || s.Make? || s.Reset? {
      StepPointerKeeps(w, t, s);
    } else {
      StepFlowKeeps(w, t, s);
    }
  }

  lemma StepUnwindKeeps(w: World, t: Tid)
    requires Moves(w, t) && w.threads[t].control.Unwind?
    ensures var o := StepUnwind(w, t, w.threads[t].control.e); !o.Fault? && (o.Ran? ==> Inv(o.w) == true)
  {
    var th := w.threads[t];
    match th.frames
    case Nil =>
    case Cons(f, _) =>
      if f.InCatch? {
        LeaveKeeps(w, t);
      } else if f.InTry? && Matches(f.clause, TypeOf(w.rt, th.control.e)) {
        CatchKeeps(w, t);
      } else if !f.InCleanup? {
        PassKeeps(w, t);
      }
  }

  // No step of any thread breaks the invariant or touches a freed header.
  lemma {:induction false} StepKeeps(w: World, t: Tid)
    requires Inv(w) == true
    ensures !Step(w, t).Fault?
    ensures Step(w, t).Ran? ==> Inv(Step(w, t).w) == true
  {
    if t in w.threads && t in w.rt.globals {
      if !w.threads[t].pending.Idle? {
        StepReleaseKeeps(w, t);
      } else if w.threads[t].control.Run? {
        StepRunKeeps(w, t, w.threads[t].control.s);
      } else {
        StepUnwindKeeps(w, t);
      }
    }
  }
}
