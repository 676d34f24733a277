// The guards of src/guard.cc as objects whose words are loaded, stored and compare-exchanged in
// place, one atomic access per method call, with the place in the code of every thread beside them.
module GuardWords {
  import opened Lists
  import Guard
  import DoubleGuard

  type Tid = Guard.Tid

  class SingleWordGuard {
    const layout: Guard.Layout
    var val: Guard.Word
    var pcs: map<Tid, Guard.Pc>

    function State(): Guard.State
      reads this
    {
      Guard.State(val, pcs)
    }

    // Static storage starts out zero.
    constructor (layout: Guard.Layout)
      ensures State() == Guard.START && this.layout == layout
    {
      this.layout := layout;
      val, pcs := 0, map[];
    }

    // is_initialised at the head of __cxa_guard_acquire
    method FastCheck(t: Tid, ghost flag: bool)
      requires Guard.At(State(), t) == Guard.Idle
      modifies this`pcs
      ensures (State(), None) == Guard.Step(layout, old(State()), Guard.Choice(t, flag))
    {
      pcs := pcs[t := if Guard.Has(layout, val) then Guard.Returning(false) else Guard.Spinning];
    }

    method CompareExchange(expected: Guard.Word, desired: Guard.Word, spurious: bool) returns (ok: bool, old_: Guard.Word)
      modifies this`val
      ensures ok <==> old(val) == expected && !spurious
      ensures old_ == old(val) && val == if ok then desired else old(val)
    {
      old_ := val;
      ok := val == expected && !spurious;
      if ok {
        val := desired;
      }
    }

    // try_lock
    method TryLock(t: Tid, spurious: bool)
      requires Guard.At(State(), t) == Guard.Spinning
      modifies this
      ensures (State(), None) == Guard.Step(layout, old(State()), Guard.Choice(t, spurious))
    {
      var ok, found := CompareExchange(0, Guard.Locked(layout), spurious);
      if ok {
        pcs := pcs[t := Guard.Returning(true)];
      } else if found == Guard.Initialised(layout) {
        pcs := pcs[t := Guard.Returning(false)];
      } else {
        pcs := pcs[t := Guard.Spinning];
      }
    }

    // unlock, from __cxa_guard_release or __cxa_guard_abort
    method Unlock(t: Tid, isInitialised: bool)
      requires Guard.At(State(), t) == Guard.Holding
      modifies this
      ensures (State(), Some(if isInitialised then Guard.Released(t) else Guard.Aborted(t)))
        == Guard.Step(layout, old(State()), Guard.Choice(t, isInitialised))
    {
      val := if isInitialised then Guard.Initialised(layout) else 0;
      pcs := pcs[t := Guard.Idle];
    }

    // Lets the threads run in the order of a schedule.
    method Execute(schedule: seq<Guard.Choice>) returns (trace: seq<Guard.Event>)
      modifies this
      ensures (State(), trace) == Guard.Run(layout, old(State()), schedule)
    {
      trace := [];
      for i := 0 to |schedule|
        invariant (State(), trace) == Guard.Run(layout, old(State()), schedule[..i])
      {
        assert schedule[..i + 1][..i] == schedule[..i] && trace + [] == trace;
        var c := schedule[i];
        match Guard.At(State(), c.t)
        case Idle => FastCheck(c.t, c.flag);
        case Spinning => TryLock(c.t, c.flag);
        case Returning(one) =>
          pcs := pcs[c.t := if one then Guard.Holding else Guard.Idle];
          trace := trace + [Guard.Returned(c.t, one)];
        case Holding =>
          Unlock(c.t, c.flag);
          trace := trace + [if c.flag then Guard.Released(c.t) else Guard.Aborted(c.t)];
      }
      assert schedule[..|schedule|] == schedule;
    }
  }

  class DoubleWordGuard {
    const layout: DoubleGuard.Layout
    var initWord: DoubleGuard.Word
    var lockWord: DoubleGuard.Word
    var pcs: map<Tid, DoubleGuard.Pc>

    function State(): DoubleGuard.State
      reads this
    {
      DoubleGuard.State(initWord, lockWord, pcs)
    }

    constructor (layout: DoubleGuard.Layout)
      ensures State() == DoubleGuard.START && this.layout == layout
    {
      this.layout := layout;
      initWord, lockWord, pcs := 0, 0, map[];
    }

    // is_initialised at the head of __cxa_guard_acquire
    method FastCheck(t: Tid, ghost flag: bool)
      requires DoubleGuard.At(State(), t) == DoubleGuard.Idle
      modifies this`pcs
      ensures (State(), None) == DoubleGuard.Step(layout, old(State()), Guard.Choice(t, flag))
    {
      pcs := pcs[t := if DoubleGuard.Has(layout, initWord) then DoubleGuard.Returning0 else DoubleGuard.Spinning];
    }

    // try_lock up to the compare-exchange
    method TakeLock(t: Tid, spurious: bool)
      requires DoubleGuard.At(State(), t) == DoubleGuard.Spinning
      modifies this
      ensures (State(), None) == DoubleGuard.Step(layout, old(State()), Guard.Choice(t, spurious))
    {
      if lockWord == 0 && !spurious {
        lockWord := DoubleGuard.Locked(layout);
        pcs := pcs[t := DoubleGuard.Looking];
      }
    }

    // try_lock once the lock is held
    method LookAgain(t: Tid, ghost flag: bool) returns (granted: bool)
      requires DoubleGuard.At(State(), t) == DoubleGuard.Looking
      modifies this`pcs
      ensures (State(), if granted then Some(Guard.Returned(t, true)) else None)
        == DoubleGuard.Step(layout, old(State()), Guard.Choice(t, flag))
    {
      granted := !DoubleGuard.Has(layout, initWord);
      pcs := pcs[t := if granted then DoubleGuard.Holding else DoubleGuard.GivingBack];
    }

    // the first store of unlock
    method StoreInit(t: Tid, isInitialised: bool)
      requires DoubleGuard.At(State(), t) == DoubleGuard.Holding
      modifies this
      ensures (State(), if isInitialised then Some(Guard.Released(t)) else None)
        == DoubleGuard.Step(layout, old(State()), Guard.Choice(t, isInitialised))
    {
      initWord := if isInitialised then DoubleGuard.Initialised(layout) else 0;
      pcs := pcs[t := DoubleGuard.Unlocking(isInitialised)];
    }

    // the second store of unlock
    method StoreLock(t: Tid, ghost flag: bool)
      requires DoubleGuard.At(State(), t).Unlocking?
      modifies this
      ensures (State(), if old(pcs)[t].done then None else Some(Guard.Aborted(t)))
        == DoubleGuard.Step(layout, old(State()), Guard.Choice(t, flag))
    {
      lockWord := 0;
      pcs := pcs[t := DoubleGuard.Asserting(pcs[t].done)];
    }

    // Lets the threads run in the order of a schedule.
    method Execute(schedule: seq<Guard.Choice>) returns (trace: seq<Guard.Event>)
      modifies this
      ensures (State(), trace) == DoubleGuard.Run(layout, old(State()), schedule)
    {
      trace := [];
      for i := 0 to |schedule|
        invariant (State(), trace) == DoubleGuard.Run(layout, old(State()), schedule[..i])
      {
        assert schedule[..i + 1][..i] == schedule[..i] && trace + [] == trace;
        var c := schedule[i];
        match DoubleGuard.At(State(), c.t)
        case Idle => FastCheck(c.t, c.flag);
        case Spinning => TakeLock(c.t, c.flag);
        case Looking =>
          var granted := LookAgain(c.t, c.flag);
          if granted { trace := trace + [Guard.Returned(c.t, true)]; }
        case GivingBack =>
          lockWord := 0;
          pcs := pcs[c.t := DoubleGuard.Returning0];
        case Returning0 =>
          pcs := pcs[c.t := DoubleGuard.Idle];
          trace := trace + [Guard.Returned(c.t, false)];
        case Holding =>
          StoreInit(c.t, c.flag);
          if c.flag { trace := trace + [Guard.Released(c.t)]; }
        case Unlocking(done) =>
          StoreLock(c.t, c.flag);
          if !done { trace := trace + [Guard.Aborted(c.t)]; }
        case Asserting(done) =>
          var ok := DoubleGuard.AssertHolds(layout, State(), done);
          pcs := pcs[c.t := if ok then DoubleGuard.Idle else DoubleGuard.Failed];
        case Failed =>
      }
      assert schedule[..|schedule|] == schedule;
    }
  }
}
