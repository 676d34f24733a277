// The emergency buffers of src/exception.cc as memory: the byte array and the flags, searched,
// cleared and marked in place.
module PoolMemory {
  import opened Lists
  import Leb128
  import opened EmergencyPool

  class Pool {
    const buffer: array<Leb128.Byte>
    const marks: array<bool>
    var held: map<Tid, nat>
    var pcs: map<Tid, Pc>
    var live: seq<Option<Live>>

    ghost predicate Ready()
      reads this
    {
      buffer.Length == TOTAL && marks.Length == BUFFERS && |live| == BUFFERS
    }

    function State(): State
      reads this, buffer, marks
    {
      EmergencyPool.State(buffer[..], marks[..], held, pcs, live)
    }

    // Static storage starts out zero.
    constructor ()
      ensures Ready() && State() == Start() && fresh(buffer) && fresh(marks)
    {
      buffer := new Leb128.Byte[TOTAL](_ => 0);
      marks := new bool[BUFFERS](_ => false);
      held, pcs, live := map[], map[], seq(BUFFERS, _ => None);
      new;
      assert buffer[..] == Start().bytes && marks[..] == Start().marks && live == Start().live;
    }

    // alloc_or_die and the head of emergency_malloc
    method AllocOrDie(t: Tid, size: nat, heap: bool) returns (event: Option<Event>)
      requires Ready() && At(State(), t) == Idle
      modifies this`pcs
      ensures Ready() && (State(), event) == Step(old(State()), Want(t, size, heap))
    {
      if heap {
        return Some(FromHeap(t, size));
      }
      if size > SIZE {
        return Some(Refused(t));
      }
      if t in held && held[t] > 3 {
        return Some(Refused(t));
      }
      pcs := pcs[t := Wanting(size)];
      return None;
    }

    // One pass of the loop in emergency_malloc, under the lock. Without an answer the thread sleeps.
    method TryAgain(t: Tid, heap: bool) returns (event: Option<Event>)
      requires Ready() && At(State(), t).Wanting?
      modifies this, marks
      ensures Ready() && (State(), event) == Step(old(State()), Retry(t, heap))
    {
      var size := pcs[t].size;
      if heap {
        pcs := pcs[t := Idle];
        return Some(FromHeap(t, size));
      }
      for i := 0 to 16
        invariant marks[..] == old(marks[..])
        invariant FirstFree(marks[..], 0) == FirstFree(marks[..], i)
      {
        if !marks[i] {
          marks[i] := true;
          live := live[i := Some(Live(t, size))];
          held := held[t := (if t in held then held[t] else 0) + 1];
          pcs := pcs[t := Idle];
          return Some(FromBuffer(t, size, i));
        }
      }
      return None;
    }

    // The buffer that starts at an address.
    method FindBuffer(at: nat) returns (found: Option<nat>)
      ensures found == if at % SIZE == 0 && at / SIZE < BUFFERS then Some(at / SIZE) else None
    {
      for i := 0 to 16
        invariant forall k :: 0 <= k < i ==> at != SIZE * k
      {
        if at == SIZE * i {
          return Some(i);
        }
      }
      assert at % SIZE == 0 ==> at == SIZE * (at / SIZE);
      return None;
    }

    // emergency_malloc_free up to the memset
    method Clear(t: Tid, at: nat) returns (event: Option<Event>)
      requires Ready() && At(State(), t) == Idle
      modifies this, buffer
      ensures Ready() && (State(), event) == Step(old(State()), Free(t, at))
    {
      var found := FindBuffer(at);
      if found.None? {
        return Some(Tripped(t));
      }
      ghost var was := buffer[..];
      for k := 0 to SIZE
        modifies buffer
        invariant forall j :: 0 <= j < TOTAL ==> buffer[j] == if at <= j < at + k then 0 else was[j]
      {
        buffer[at + k] := 0;
      }
      assert buffer[..] == Cleared(was, found.value);
      pcs := pcs[t := Clearing(found.value)];
      live := live[found.value := None];
      return None;
    }

    // the rest of emergency_malloc_free
    method Unmark(t: Tid)
      requires Ready() && At(State(), t).Clearing? && At(State(), t).buffer < BUFFERS
      modifies this`pcs, marks
      ensures Ready() && (State(), None) == Step(old(State()), EmergencyPool.Unmark(t))
    {
      marks[pcs[t].buffer] := false;
      pcs := pcs[t := Idle];
    }
  }
}
