// Where an exception lands, over runs: the cleanups that it stops at and the handler that it enters,
// by their places on the stack of frames that it was thrown on.
module Landing {
  import opened Lists
  import opened Abi
  import opened Machine
  import opened Lifetime
  import opened LifetimeSteps
  import opened ProgramMeaning

  // A try block with a clause for the type, and a frame that no exception of the type passes.
  predicate Takes(f: Frame, ty: nat) {
    f.InTry? && (f.clause.CatchAll? || ty in f.clause.types)
  }

  ghost predicate Passed(frames: List<Frame>, ty: nat, i: nat)
    requires i <= Length(frames)
  {
    forall j: nat :: j < i ==> !Takes(Nth(frames, j), ty) && !Nth(frames, j).InCleanup?
  }

  ghost predicate Innermost(frames: List<Frame>, ty: nat, i: nat) {
    i < Length(frames) && Takes(Nth(frames, i), ty) && Passed(frames, ty, i)
  }

  // The way of an exception: each armed cleanup from the innermost frame out, then the handler.
  function Way(frames: List<Frame>, o: Object): List<Event> {
    match frames
    case Nil => Nil
    case Cons(f, rest) =>
      if Takes(f, o.ty) then One(Entered(o, f.handler, Length(rest)))
      else if f.InCleanup? then Nil
      else if f.Armed? then Cons(Cleaned(f.cleanup, Length(rest)), Way(rest, o))
      else Way(rest, o)
  }

  predicate Has(tr: List<Event>, event: Event) {
    tr.Cons? && (tr.head == event || Has(tr.tail, event))
  }

  lemma PassedCons(f: Frame, rest: List<Frame>, ty: nat, i: nat)
    requires i <= Length(rest)
    ensures Passed(Cons(f, rest), ty, i + 1) <==> !Takes(f, ty) && !f.InCleanup? && Passed(rest, ty, i)
  {
    var frames := Cons(f, rest);
    assert Nth(frames, 0) == f;
    if Passed(frames, ty, i + 1) {
      forall j: nat | j < i ensures !Takes(Nth(rest, j), ty) && !Nth(rest, j).InCleanup? {
        assert Nth(frames, j + 1) == Nth(rest, j);
      }
    } else {
      var j: nat :| j < i + 1 && (Takes(Nth(frames, j), ty) || Nth(frames, j).InCleanup?);
      assert j > 0 ==> Nth(frames, j) == Nth(rest, j - 1);
    }
  }

  // The handler on the way is that of the innermost try block with a clause for the type.
  lemma {:induction false} WayEnters(frames: List<Frame>, o: Object, event: Event)
    requires event.Entered?
    ensures Has(Way(frames, o), event) <==>
      event.o == o && exists i: nat :: Innermost(frames, o.ty, i) && event == Entered(o, Nth(frames, i).handler, Length(frames) - 1 - i)
  {
    match frames
    case Nil =>
    case Cons(f, rest) =>
      WayEnters(rest, o, event);
      if Takes(f, o.ty) {
        assert Nth(frames, 0) == f && Innermost(frames, o.ty, 0);
        assert forall i: nat :: Innermost(frames, o.ty, i) ==> i == 0;
      } else {
        forall i: nat | i < Length(rest) ensures Innermost(frames, o.ty, i + 1) <==> !f.InCleanup? && Innermost(rest, o.ty, i) {
          PassedCons(f, rest, o.ty, i);
        }
        if i: nat :| Innermost(rest, o.ty, i) && event == Entered(o, Nth(rest, i).handler, Length(rest) - 1 - i) {
          assert Nth(frames, i + 1) == Nth(rest, i);
        }
        if i: nat :| Innermost(frames, o.ty, i) && event == Entered(o, Nth(frames, i).handler, Length(frames) - 1 - i) {
          assert i > 0 && Innermost(frames, o.ty, (i - 1) + 1);
        }
      }
  }

  // The cleanups on the way are those armed before it.
  lemma {:induction false} WayCleans(frames: List<Frame>, o: Object, event: Event)
    requires event.Cleaned?
    ensures Has(Way(frames, o), event) <==>
      exists k: nat :: k < Length(frames) && Passed(frames, o.ty, k)
        && Nth(frames, k) == Armed(event.cleanup) && event.level == Length(frames) - 1 - k
  {
    match frames
    case Nil =>
    case Cons(f, rest) =>
      WayCleans(rest, o, event);
      forall k: nat | k < Length(rest) ensures Passed(frames, o.ty, k + 1) <==> !Takes(f, o.ty) && !f.InCleanup? && Passed(rest, o.ty, k) {
        PassedCons(f, rest, o.ty, k);
      }
      assert Passed(frames, o.ty, 0);
      if k: nat :| k < Length(rest) && Passed(rest, o.ty, k) && Nth(rest, k) == Armed(event.cleanup) && event.level == Length(rest) - 1 - k {
        assert Nth(frames, k + 1) == Nth(rest, k);
      }
      if k: nat :| k < Length(frames) && Passed(frames, o.ty, k) && Nth(frames, k) == Armed(event.cleanup) && event.level == Length(frames) - 1 - k {
        assert k > 0 ==> Passed(frames, o.ty, (k - 1) + 1) && Nth(frames, k) == Nth(rest, k - 1);
      }
  }

  // A frame that takes the type, or a cleanup that an exception is not to leave.
  predicate EndsSearch(frames: List<Frame>, ty: nat, i: nat) {
    i < Length(frames) &&
    var f := Nth(frames, i); f.InCleanup? || (f.InTry? && (f.clause.CatchAll? || ty in f.clause.types))
  }

  // The search for a handler finds one exactly if there is such a frame.
  lemma {:induction false} HandledExactly(frames: List<Frame>, ty: nat)
    ensures Handled(frames, ty) <==> exists i: nat :: EndsSearch(frames, ty, i)
  {
    match frames
    case Nil =>
    case Cons(f, rest) =>
      HandledExactly(rest, ty);
      forall i: nat ensures EndsSearch(frames, ty, i + 1) == EndsSearch(rest, ty, i) {
      }
      assert EndsSearch(frames, ty, 0) <==> f.InCleanup? || (f.InTry? && Matches(f.clause, ty));
      if i: nat :| EndsSearch(rest, ty, i) {
        assert EndsSearch(frames, ty, i + 1);
      }
      if i: nat :| EndsSearch(frames, ty, i) && i > 0 {
        assert EndsSearch(rest, ty, i - 1) == EndsSearch(frames, ty, (i - 1) + 1);
      }
  }

  // ----- What a run shows of it -----

  // The cleanups and handlers that are entered below everything entered before, up to the first
  // handler: what a cleanup does in between lies above it.
  function Descent(tr: List<Event>, level: nat): List<Event> {
    match tr
    case Nil => Nil
    case Cons(Entered(o, handler, at), rest) => if at < level then One(Entered(o, handler, at)) else Descent(rest, level)
    case Cons(Cleaned(cleanup, at), rest) => if at < level then Cons(Cleaned(cleanup, at), Descent(rest, at)) else Descent(rest, level)
    case Cons(_, rest) => Descent(rest, level)
  }

  predicate Begins(a: List<Event>, b: List<Event>) {
    a.Nil? || (b.Cons? && a.head == b.head && Begins(a.tail, b.tail))
  }

  // These frames lie on top of a cleanup that e waits for, and of the base below it.
  predicate Above(frames: List<Frame>, e: Id, base: List<Frame>) {
    frames.Cons? && (frames == Cons(InCleanup(e), base) || Above(frames.tail, e, base))
  }

  lemma {:induction false} AboveLonger(frames: List<Frame>, e: Id, base: List<Frame>)
    requires Above(frames, e, base)
    ensures Length(frames) > Length(base) && e in Elements(Resuming(frames))
  {
    if frames != Cons(InCleanup(e), base) {
      AboveLonger(frames.tail, e, base);
    }
  }

  predicate High(tr: List<Event>, level: nat) {
    match tr
    case Nil => true
    case Cons(event, rest) => (event.Entered? || event.Cleaned? ==> event.level >= level) && High(rest, level)
  }

  lemma {:induction false} HighDescent(a: List<Event>, b: List<Event>, level: nat)
    requires High(a, level)
    ensures Descent(Append(a, b), level) == Descent(b, level)
  {
    match a
    case Nil =>
    case Cons(_, rest) => HighDescent(rest, b, level);
  }

  lemma CleanedDescent(cleanup: Stmt, at: nat, rest: List<Event>, level: nat)
    requires at < level
    ensures Descent(Append(One(Cleaned(cleanup, at)), rest), level) == Cons(Cleaned(cleanup, at), Descent(rest, at))
  {
  }

  // A step above the cleanup stays above it, or ends it.
  ghost predicate StaysAbove(w: World, t: Tid, w': World, e: Id, base: List<Frame>)
    requires t in w.threads
  {
    && t in w'.threads && High(Seen(w, t, w'), Length(base))
    && (Above(w'.threads[t].frames, e, base) || (w'.threads[t].frames == base && w'.threads[t].control == Unwind(e)))
  }

  lemma RunAbove(w: World, t: Tid, s: Stmt, e: Id, base: List<Frame>)
    requires Runs(w, t, s) && !s.Skip? && StepRun(w, t, s).Ran? && Above(w.threads[t].frames, e, base)
    ensures StaysAbove(w, t, StepRun(w, t, s).w, e, base)
  {
  }

  lemma PopAbove(w: World, t: Tid, e: Id, base: List<Frame>)
    requires t in w.threads && t in w.rt.globals && w.threads[t].pending.Idle? && (w.threads[t].control.Run? ==> w.threads[t].control.s.Skip?)
    requires Step(w, t).Ran? && Above(w.threads[t].frames, e, base)
    ensures StaysAbove(w, t, Step(w, t).w, e, base)
  {
    var rest := w.threads[t].frames.tail;
    if w.threads[t].frames != Cons(InCleanup(e), base) {
      AboveLonger(rest, e, base);
    }
  }

  lemma AboveStep(w: World, t: Tid, e: Id, base: List<Frame>)
    requires t in w.threads && t in w.rt.globals && Step(w, t).Ran? && Above(w.threads[t].frames, e, base)
    ensures StaysAbove(w, t, Step(w, t).w, e, base)
  {
    var th := w.threads[t];
    if !th.pending.Idle? {
      ReleaseStays(w, t);
    } else if th.control.Run? && !th.control.s.Skip? {
      RunAbove(w, t, th.control.s, e, base);
    } else {
      PopAbove(w, t, e, base);
    }
  }

  // A step of an exception in flight.
  lemma UnwindStep(w: World, t: Tid, level: nat)
    requires t in w.threads && t in w.rt.globals && Step(w, t).Ran? && w.threads[t].pending.Idle? && w.threads[t].control.Unwind?
    requires w.threads[t].frames.Cons? && level >= Length(w.threads[t].frames) && Steady(w, Step(w, t).w, t)
    ensures t in Step(w, t).w.threads
    ensures var w', e, f, rest := Step(w, t).w, w.threads[t].control.e, w.threads[t].frames.head, w.threads[t].frames.tail;
      var o := ObjectOf(w.rt, e);
      && !f.InCleanup?
      && (if Takes(f, o.ty) then Seen(w, t, w') == One(Entered(o, f.handler, Length(rest)))
          else if f.Armed? then Seen(w, t, w') == One(Cleaned(f.cleanup, Length(rest))) && Above(w'.threads[t].frames, e, rest)
          else High(Seen(w, t, w'), level) && w'.threads[t].frames == rest && w'.threads[t].control == Unwind(e))
  {
  }

  lemma FlyingObject(w: World, u: Tid, t: Tid, e: Id)
    requires Inv(w) && Step(w, u).Ran? && t in w.threads && e in Flying(w.threads[t])
    requires Inv(Step(w, u).w) && t in Step(w, u).w.threads && e in Flying(Step(w, u).w.threads[t])
    ensures ObjectOf(Step(w, u).w.rt, e) == ObjectOf(w.rt, e)
  {
    FreshUnknown(w);
    StepKinds(w, u);
    ActiveTyped(w, t, e);
    ActiveTyped(Step(w, u).w, t, e);
    SameObject(w.rt, Step(w, u).w.rt, e);
  }

  // What a step of an exception in flight adds to its way.
  ghost predicate StepsOnTheWay(w: World, t: Tid, w': World, level: nat, tr: List<Event>)
    requires t in w.threads && t in w'.threads && w.threads[t].control.Unwind? && w.threads[t].frames.Cons?
  {
    var e, f, rest := w.threads[t].control.e, w.threads[t].frames.head, w.threads[t].frames.tail;
    var o, all := ObjectOf(w.rt, e), Append(Seen(w, t, w'), tr);
    && ObjectOf(w'.rt, e) == o
    && (if Takes(f, o.ty) then Begins(Descent(all, level), Way(Cons(f, rest), o))
        else if f.Armed? then
          && Above(w'.threads[t].frames, e, rest)
          && (Begins(Descent(tr, Length(rest)), Way(rest, o)) ==> Begins(Descent(all, level), Way(Cons(f, rest), o)))
        else
          && w'.threads[t].frames == rest && w'.threads[t].control == Unwind(e)
          && Descent(all, level) == Descent(tr, level) && Way(Cons(f, rest), o) == Way(rest, o))
  }

  lemma FlyingStep(w: World, t: Tid, level: nat, tr: List<Event>)
    requires t in w.threads && t in w.rt.globals && w.threads[t].pending.Idle? && w.threads[t].control.Unwind?
    requires Step(w, t).Ran? && Inv(w) && Inv(Step(w, t).w) && level >= Length(w.threads[t].frames)
    ensures t in Step(w, t).w.threads && w.threads[t].frames.Cons? && StepsOnTheWay(w, t, Step(w, t).w, level, tr)
  {
    UnwindSteady(w, t);
    SteadyStep(w, t, level, tr);
  }

  lemma SteadyStep(w: World, t: Tid, level: nat, tr: List<Event>)
    requires t in w.threads && t in w.rt.globals && w.threads[t].pending.Idle? && w.threads[t].control.Unwind?
    requires Step(w, t).Ran? && level >= Length(w.threads[t].frames) && w.threads[t].frames.Cons? && Steady(w, Step(w, t).w, t)
    ensures t in Step(w, t).w.threads && StepsOnTheWay(w, t, Step(w, t).w, level, tr)
  {
    UnwindStep(w, t, level);
    var w', f, rest := Step(w, t).w, w.threads[t].frames.head, w.threads[t].frames.tail;
    if f.Armed? {
      CleanedDescent(f.cleanup, Length(rest), tr, level);
    } else if !Takes(f, ObjectOf(w.rt, w.threads[t].control.e).ty) {
      HighDescent(Seen(w, t, w'), tr, level);
    }
  }

  // The exception in flight on these frames, and in a cleanup that it waits for.
  lemma {:induction false} FlyingDescends(w: World, schedule: List<Tid>, t: Tid, level: nat)
    requires Inv(w) && Execute(w, schedule).Ran? && t in w.threads && w.threads[t].control.Unwind?
    requires level >= Length(w.threads[t].frames)
    ensures Begins(Descent(HistoryOf(w, schedule, t), level), Way(w.threads[t].frames, ObjectOf(w.rt, w.threads[t].control.e)))
    decreases schedule
  {
    match schedule
    case Nil =>
    case Cons(u, rest) =>
      var w', e, frames := Step(w, u).w, w.threads[t].control.e, w.threads[t].frames;
      StepKeeps(w, u);
      OthersStay(w, u);
      if u != t || !w.threads[t].pending.Idle? {
        if u == t { ReleaseStays(w, t); }
        FlyingObject(w, u, t, e);
        FlyingDescends(w', rest, t, level);
      } else {
        FlyingStep(w, t, level, HistoryOf(w', rest, t));
        if !Takes(frames.head, ObjectOf(w.rt, e).ty) {
          if frames.head.Armed? {
            CleaningDescends(w', rest, t, e, frames.tail);
          } else {
            FlyingDescends(w', rest, t, level);
          }
        }
      }
  }

  lemma {:induction false} CleaningDescends(w: World, schedule: List<Tid>, t: Tid, e: Id, base: List<Frame>)
    requires Inv(w) && Execute(w, schedule).Ran? && t in w.threads && Above(w.threads[t].frames, e, base)
    ensures Begins(Descent(HistoryOf(w, schedule, t), Length(base)), Way(base, ObjectOf(w.rt, e)))
    decreases schedule
  {
    match schedule
    case Nil =>
    case Cons(u, rest) =>
      var w' := Step(w, u).w;
      StepKeeps(w, u);
      OthersStay(w, u);
      AboveLonger(w.threads[t].frames, e, base);
      if u == t {
        AboveStep(w, t, e, base);
        HighDescent(Seen(w, t, w'), HistoryOf(w', rest, t), Length(base));
      }
      if Above(w'.threads[t].frames, e, base) {
        AboveLonger(w'.threads[t].frames, e, base);
        FlyingObject(w, u, t, e);
        CleaningDescends(w', rest, t, e, base);
      } else {
        FlyingObject(w, u, t, e);
        FlyingDescends(w', rest, t, Length(base));
      }
  }

  predicate Raising(w: World, s: Stmt) {
    s.Throw? || s.Rethrow? || (s.ThrowFrom? && s.src in w.ptrs)
  }

  // A statement that raises leaves the frames alone, and what it raises is of the type thrown, what the
  // innermost handler has caught, or what the variable holds.
  ghost predicate Raises(w: World, w': World, t: Tid, s: Stmt)
    requires t in w.threads
  {
    && t in w'.threads && w'.threads[t].frames == w.threads[t].frames && w'.threads[t].control.Unwind?
    && High(Seen(w, t, w'), Length(w.threads[t].frames))
    && var o := ObjectOf(w'.rt, w'.threads[t].control.e);
      && (s.Throw? ==> o.ty == s.ty)
      && (s.Rethrow? ==> Cur(Spots(w.rt, w.threads[t].frames)) == Some(o))
      && (s.ThrowFrom? ==> Value(w, s.src) == Some(o))
  }

  lemma ThrowRaises(w: World, t: Tid, ty: nat)
    requires Runs(w, t, Stmt.Throw(ty)) && Step(w, t).Ran?
    ensures Raises(w, Step(w, t).w, t, Stmt.Throw(ty))
  {
  }

  lemma RethrowRaises(w: World, t: Tid)
    requires Inv(w) && Runs(w, t, Stmt.Rethrow) && Step(w, t).Ran?
    ensures Raises(w, Step(w, t).w, t, Stmt.Rethrow)
  {
    CaughtIsCur(w, t);
    SameRethrown(w, t);
  }

  lemma SameRethrown(w: World, t: Tid)
    requires Runs(w, t, Stmt.Rethrow) && Step(w, t).Ran? && w.rt.globals[t].caught.Some? && Typed(w.rt, w.rt.globals[t].caught.value)
    ensures ObjectOf(Step(w, t).w.rt, w.rt.globals[t].caught.value) == ObjectOf(w.rt, w.rt.globals[t].caught.value)
  {
  }

  lemma ThrowFromRaises(w: World, t: Tid, src: Handle)
    requires Inv(w) && Runs(w, t, ThrowFrom(src)) && src in w.ptrs && Step(w, t).Ran?
    ensures Raises(w, Step(w, t).w, t, ThrowFrom(src))
  {
    PointsAtLive(w, src);
    FreshUnknown(w);
    DependentObject(w, t, src);
    DependentRaises(w, t, src);
  }

  lemma DependentRaises(w: World, t: Tid, src: Handle)
    requires Runs(w, t, ThrowFrom(src)) && src in w.ptrs && Step(w, t).Ran?
    requires ObjectOf(Step(w, t).w.rt, Fresh(w)) == ObjectOf(w.rt, w.ptrs[src])
    ensures Raises(w, Step(w, t).w, t, ThrowFrom(src))
  {
  }

  lemma {:induction false} BeginsHas(a: List<Event>, b: List<Event>, event: Event)
    requires Begins(a, b) && Has(a, event)
    ensures Has(b, event)
  {
    if a.head != event {
      BeginsHas(a.tail, b.tail, event);
    }
  }

  // What thread t does from then on is the way of the exception.
  ghost predicate GoesItsWay(w: World, w': World, t: Tid, tr: List<Event>) {
    && t in w.threads && t in w'.threads && w'.threads[t].control.Unwind?
    && var frames := w.threads[t].frames;
      Begins(Descent(tr, Length(frames)), Way(frames, ObjectOf(w'.rt, w'.threads[t].control.e)))
  }

  lemma StepRaises(w: World, t: Tid, s: Stmt)
    requires Inv(w) && Runs(w, t, s) && Raising(w, s) && Step(w, t).Ran?
    ensures Raises(w, Step(w, t).w, t, s) == true
  {
    match s {
      case Throw(ty) => ThrowRaises(w, t, ty);
      case Rethrow => RethrowRaises(w, t);
      case ThrowFrom(src) => ThrowFromRaises(w, t, src);
    }
  }

  // From the moment that a statement raises an exception: the cleanups and the handler that the thread
  // enters lower and lower on its stack are those on the way of the exception, in this order and
  // without gaps.
  lemma RaiseLands(w: World, rest: List<Tid>, t: Tid, s: Stmt)
    requires Runs(w, t, s) && Raising(w, s) && Step(w, t).Ran? && Execute(Step(w, t).w, rest).Ran? && Inv(w) == true
    ensures Raises(w, Step(w, t).w, t, s) == true
    ensures GoesItsWay(w, Step(w, t).w, t, HistoryOf(w, Cons(t, rest), t))
  {
    var w', frames := Step(w, t).w, w.threads[t].frames;
    StepKeeps(w, t);
    StepRaises(w, t, s);
    FlyingDescends(w', rest, t, Length(frames));
    HighDescent(Seen(w, t, w'), HistoryOf(w', rest, t), Length(frames));
  }

  // The event enters the handler of the innermost try block with a clause for the type.
  ghost predicate EntersInnermost(frames: List<Frame>, o: Object, event: Event) {
    && event.Entered? && event.o == o
    && exists i: nat :: i < Length(frames) && TakesAt(frames, i, o.ty, event.handler) && event.level == Length(frames) - 1 - i
  }

  ghost predicate TakesAt(frames: List<Frame>, i: nat, ty: nat, handler: Stmt)
    requires i < Length(frames)
  {
    && Nth(frames, i).InTry? && Nth(frames, i).handler == handler
    && (Nth(frames, i).clause.CatchAll? || ty in Nth(frames, i).clause.types)
    && (forall j: nat :: j < i ==>
        !Nth(frames, j).InCleanup?
        && (Nth(frames, j).InTry? ==> !Nth(frames, j).clause.CatchAll? && ty !in Nth(frames, j).clause.types))
  }

  lemma WayInnermost(frames: List<Frame>, o: Object, event: Event)
    requires event.Entered? && Has(Way(frames, o), event)
    ensures EntersInnermost(frames, o, event)
  {
    WayEnters(frames, o, event);
    var i: nat :| Innermost(frames, o.ty, i) && event == Entered(o, Nth(frames, i).handler, Length(frames) - 1 - i);
    forall j: nat | j < i
      ensures !Nth(frames, j).InCleanup?
      ensures Nth(frames, j).InTry? ==> !Nth(frames, j).clause.CatchAll? && o.ty !in Nth(frames, j).clause.types
    {
      assert !Takes(Nth(frames, j), o.ty);
    }
    assert TakesAt(frames, i, o.ty, event.handler);
  }

  // So the handler, if it is reached, is that one.
  lemma HandlerIsInnermost(w: World, rest: List<Tid>, t: Tid, s: Stmt, event: Event)
    requires Runs(w, t, s) && Raising(w, s) && Step(w, t).Ran? && Execute(Step(w, t).w, rest).Ran? && Inv(w) == true
    requires event.Entered? && Has(Descent(HistoryOf(w, Cons(t, rest), t), Length(w.threads[t].frames)), event)
    ensures Raises(w, Step(w, t).w, t, s) == true
    ensures var w' := Step(w, t).w;
      && t in w'.threads && w'.threads[t].control.Unwind?
      && EntersInnermost(w.threads[t].frames, ObjectOf(w'.rt, w'.threads[t].control.e), event)
  {
    RaiseLands(w, rest, t, s);
    var o, frames := ObjectOf(Step(w, t).w.rt, Step(w, t).w.threads[t].control.e), w.threads[t].frames;
    BeginsHas(Descent(HistoryOf(w, Cons(t, rest), t), Length(frames)), Way(frames, o), event);
    WayInnermost(frames, o, event);
  }
}
