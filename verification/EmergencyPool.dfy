// The allocator of exception headers of src/exception.cc: calloc, and when that fails one of
// sixteen emergency buffers, shared by all threads under a lock.
//
// Each pass through the loop under the lock is one step, and so are the clearing of a freed buffer,
// which happens outside the lock, and its unmarking, which happens under it.
module EmergencyPool {
  import opened Lists
  import opened Leb128
  import Lsda

  type Tid = nat

  const BUFFERS := 16
  const SIZE := 1024
  const TOTAL := 16384

  // Of a thread: in the loop of emergency_malloc, asleep or about to try, or between the clearing
  // and the unmarking in emergency_malloc_free.
  datatype Pc = Idle | Wanting(size: nat) | Clearing(buffer: nat)

  // An allocation in use: who made it, and how long it is.
  datatype Live = Live(owner: Tid, size: nat)

  datatype State = State(
    bytes: seq<Byte>,               // emergency_buffer
    marks: seq<bool>,               // buffer_allocated
    held: map<Tid, nat>,            // emergencyBuffersHeld of each thread
    pcs: map<Tid, Pc>,
    live: seq<Option<Live>>)        // by buffer

  datatype Choice =
    | Want(t: Tid, size: nat, heap: bool)   // alloc_or_die; heap says that calloc succeeds
    | Retry(t: Tid, heap: bool)             // one pass of the loop in emergency_malloc
    | Write(at: nat, value: Byte)           // the program writes to an allocation
    | Free(t: Tid, at: nat)                 // emergency_malloc_free up to the memset
    | Unmark(t: Tid)                        // the rest of it

  datatype Event =
    | FromHeap(t: Tid, size: nat)           // a zeroed block from calloc
    | FromBuffer(t: Tid, size: nat, buffer: nat)
    | Refused(t: Tid)                       // terminate for lack of memory
    | Tripped(t: Tid)                       // the assertion failed

  function Start(): State {
    State(seq(TOTAL, _ => 0), seq(BUFFERS, _ => false), map[], map[], seq(BUFFERS, _ => None))
  }

  function At(s: State, t: Tid): Pc {
    if t in s.pcs then s.pcs[t] else Idle
  }

  function Held(s: State, t: Tid): nat {
    if t in s.held then s.held[t] else 0
  }

  // The first buffer from i on that is not marked.
  function FirstFree(marks: seq<bool>, i: nat): (r: Option<nat>)
    requires i <= |marks|
    ensures r.Some? ==> i <= r.value < |marks| && !marks[r.value]
    ensures r.None? ==> forall k :: i <= k < |marks| ==> marks[k]
    decreases |marks| - i
  {
    if i == |marks| then None else if !marks[i] then Some(i) else FirstFree(marks, i + 1)
  }

  function Cleared(bytes: seq<Byte>, buffer: nat): (r: seq<Byte>)
    ensures |r| == |bytes|
  {
    seq(|bytes|, k requires 0 <= k < |bytes| => if buffer * SIZE <= k < buffer * SIZE + SIZE then 0 else bytes[k])
  }

  predicate Shaped(s: State) {
    |s.bytes| == TOTAL && |s.marks| == BUFFERS && |s.live| == BUFFERS
  }

  function TakeBuffer(s: State, t: Tid, size: nat): (State, Option<Event>)
    requires Shaped(s)
  {
    match FirstFree(s.marks, 0)
    case None => (s, None)
    case Some(i) =>
      (State(s.bytes, s.marks[i := true], s.held[t := Held(s, t) + 1], s.pcs[t := Idle], s.live[i := Some(Live(t, size))]),
       Some(FromBuffer(t, size, i)))
  }

  function Step(s: State, c: Choice): (State, Option<Event>)
    requires Shaped(s)
  {
    match c
    case Want(t, size, heap) =>
      if heap then (s, Some(FromHeap(t, size)))
      else if size > SIZE || Held(s, t) > 3 then (s, Some(Refused(t)))
      else (s.(pcs := s.pcs[t := Wanting(size)]), None)
    case Retry(t, heap) =>
      if !At(s, t).Wanting? then (s, None)
      else
        var size := At(s, t).size;
        if heap then (s.(pcs := s.pcs[t := Idle]), Some(FromHeap(t, size)))
        else TakeBuffer(s, t, size)
    case Write(at, value) => if at < TOTAL then (s.(bytes := s.bytes[at := value]), None) else (s, None)
    case Free(t, at) =>
      if at % SIZE != 0 || at / SIZE >= BUFFERS then (s, Some(Tripped(t)))
      else
        var i := at / SIZE;
        (s.(bytes := Cleared(s.bytes, i), pcs := s.pcs[t := Clearing(i)], live := s.live[i := None]), None)
    case Unmark(t) =>
      if At(s, t).Clearing? && At(s, t).buffer < BUFFERS then
        (s.(marks := s.marks[At(s, t).buffer := false], pcs := s.pcs[t := Idle]), None)
      else (s, None)
  }

  // What programs do: a thread finishes one call before it starts another, writes stay inside
  // allocations in use, and only those are freed, each once.
  predicate Legal(s: State, c: Choice)
    requires Shaped(s)
  {
    match c
    case Want(t, _, _) => At(s, t) == Idle
    case Retry(t, _) => At(s, t).Wanting?
    case Write(at, _) => at < TOTAL && s.live[at / SIZE].Some? && at % SIZE < s.live[at / SIZE].value.size
    case Free(t, at) => At(s, t) == Idle && at < TOTAL && at % SIZE == 0 && s.live[at / SIZE].Some?
    case Unmark(t) => At(s, t).Clearing?
  }

  // ----- What every reachable state satisfies -----

  ghost predicate Zero(bytes: seq<Byte>, buffer: nat) {
    forall k :: buffer * SIZE <= k < buffer * SIZE + SIZE && k < |bytes| ==> bytes[k] == 0
  }

  // The buffers in use that a thread allocated.
  function Owned(s: State, t: Tid): set<nat>
    requires Shaped(s)
  {
    set i: nat | i < BUFFERS && s.live[i].Some? && s.live[i].value.owner == t
  }

  // A buffer is marked exactly while it is in use or being cleared, and it is all zero unless it is
  // in use.
  ghost predicate Buffers(s: State)
    requires Shaped(s)
  {
    forall i: nat :: i < BUFFERS ==> BufferOk(s, i)
  }

  ghost predicate BufferOk(s: State, i: nat)
    requires Shaped(s) && i < BUFFERS
  {
    && (s.live[i].Some? ==> s.marks[i] && s.live[i].value.size <= SIZE)
    && (s.live[i].None? ==> Zero(s.bytes, i) && (s.marks[i] ==> exists t: Tid :: At(s, t) == Clearing(i)))
  }

  // Only one thread clears a buffer.
  ghost predicate Cleaners(s: State)
    requires Shaped(s)
  {
    && (forall t: Tid :: At(s, t).Clearing? ==> Cleaning(s, At(s, t).buffer))
    && (forall t: Tid, u: Tid :: At(s, t).Clearing? && At(s, u).Clearing? && At(s, t) == At(s, u) ==> t == u)
  }

  predicate Cleaning(s: State, i: nat)
    requires Shaped(s)
  {
    i < BUFFERS && s.marks[i] && s.live[i].None?
  }

  // No thread has more than four buffers. The count of a thread only bounds them.
  ghost predicate Quotas(s: State)
    requires Shaped(s)
  {
    && (forall t: Tid :: |Owned(s, t)| <= Held(s, t) <= 4)
    && (forall t: Tid :: At(s, t).Wanting? ==> At(s, t).size <= SIZE && Held(s, t) <= 3)
  }

  ghost predicate Valid(s: State) {
    Shaped(s) && Buffers(s) && Cleaners(s) && Quotas(s)
  }

  lemma StartValid()
    ensures Valid(Start())
  {
    forall t: Tid ensures Owned(Start(), t) == {} {
    }
  }

  // The threads that a step does not move.
  lemma OthersWait(s: State, c: Choice)
    requires Shaped(s)
    ensures var s' := Step(s, c).0; Shaped(s') && forall u: Tid :: (!c.Write? && u == c.t) || At(s', u) == At(s, u)
  {
  }

  lemma StillClearing(s: State, s': State, c: Choice, i: nat)
    requires Shaped(s) && s' == Step(s, c).0 && Legal(s, c) && !c.Unmark?
    requires exists t: Tid :: At(s, t) == Clearing(i)
    ensures exists t: Tid :: At(s', t) == Clearing(i)
  {
    OthersWait(s, c);
    var t: Tid :| At(s, t) == Clearing(i);
    assert At(s', t) == Clearing(i);
  }

  lemma ZeroStays(s: State, c: Choice, i: nat)
    requires Valid(s) && Legal(s, c) && i < BUFFERS
    ensures var s' := Step(s, c).0; Shaped(s') && (s'.live[i].None? ==> Zero(s'.bytes, i))
  {
    assert BufferOk(s, i);
    var s' := Step(s, c).0;
    if s'.live[i].None? {
      forall k | i * SIZE <= k < i * SIZE + SIZE && k < |s'.bytes| ensures s'.bytes[k] == 0 {
        assert k / SIZE == i;
      }
    }
  }

  lemma BufferStep(s: State, c: Choice, i: nat)
    requires Valid(s) && Legal(s, c) && i < BUFFERS
    ensures var s' := Step(s, c).0; Shaped(s') && BufferOk(s', i)
  {
    var s' := Step(s, c).0;
    assert BufferOk(s, i);
    ZeroStays(s, c, i);
    match c
    case Want(t, _, _) =>
      if s.marks[i] && s.live[i].None? { StillClearing(s, s', c, i); }
    case Retry(t, _) =>
      if s.marks[i] && s.live[i].None? { StillClearing(s, s', c, i); }
    case Write(at, _) =>
      if s.marks[i] && s.live[i].None? { StillClearing(s, s', c, i); }
    case Free(t, at) =>
      if at / SIZE == i {
        assert At(s', t) == Clearing(i);
      } else if s.marks[i] && s.live[i].None? {
        StillClearing(s, s', c, i);
      }
    case Unmark(t) =>
      if s'.marks[i] && s.live[i].None? {
        OthersWait(s, c);
        var u: Tid :| At(s, u) == Clearing(i);
        assert At(s', u) == Clearing(i);
      }
  }

  lemma CleanersStep(s: State, c: Choice)
    requires Valid(s) && Legal(s, c)
    ensures var s' := Step(s, c).0; Shaped(s') && Cleaners(s')
  {
    var s' := Step(s, c).0;
    OthersWait(s, c);
    forall t: Tid | At(s', t).Clearing? ensures Cleaning(s', At(s', t).buffer) {
      if At(s, t).Clearing? {
        assert Cleaning(s, At(s, t).buffer);
        assert At(s', t) == At(s, t);
        assert c.Unmark? ==> At(s, c.t) != At(s, t);
      } else {
        assert c == Free(t, c.at) && BufferOk(s, c.at / SIZE);
      }
    }
    forall t: Tid, u: Tid | At(s', t).Clearing? && At(s', u).Clearing? && At(s', t) == At(s', u) ensures t == u {
      assert At(s, t).Clearing? ==> Cleaning(s, At(s, t).buffer);
      assert At(s, u).Clearing? ==> Cleaning(s, At(s, u).buffer);
    }
  }

  lemma TakeOwned(s: State, t: Tid, size: nat, i: nat, u: Tid)
    requires Shaped(s) && FirstFree(s.marks, 0) == Some(i) && s.live[i].None?
    ensures var s' := TakeBuffer(s, t, size).0;
      Shaped(s') && |Owned(s', u)| == |Owned(s, u)| + if u == t then 1 else 0
  {
    var s' := TakeBuffer(s, t, size).0;
    assert s'.live == s.live[i := Some(Live(t, size))];
    assert Owned(s', u) == if u == t then Owned(s, u) + {i} else Owned(s, u);
  }

  lemma QuotaStep(s: State, c: Choice, t: Tid)
    requires Valid(s) && Legal(s, c)
    ensures var s' := Step(s, c).0; Shaped(s') && |Owned(s', t)| <= Held(s', t) <= 4
  {
    assert |Owned(s, t)| <= Held(s, t) <= 4;
    if c.Retry? && !c.heap && FirstFree(s.marks, 0).Some? {
      assert BufferOk(s, FirstFree(s.marks, 0).value);
      TakeOwned(s, c.t, At(s, c.t).size, FirstFree(s.marks, 0).value, t);
    } else {
      Fewer(Owned(Step(s, c).0, t), Owned(s, t));
    }
  }

  lemma WantingStep(s: State, c: Choice, t: Tid)
    requires Valid(s) && Legal(s, c)
    ensures var s' := Step(s, c).0; Shaped(s') && (At(s', t).Wanting? ==> At(s', t).size <= SIZE && Held(s', t) <= 3)
  {
    OthersWait(s, c);
  }

  lemma {:induction false} Fewer(a: set<nat>, b: set<nat>)
    requires a <= b
    ensures |a| <= |b|
  {
    if a != {} {
      var x :| x in a;
      Fewer(a - {x}, b - {x});
    }
  }

  lemma StepKeeps(s: State, c: Choice)
    requires Valid(s) && Legal(s, c)
    ensures Valid(Step(s, c).0)
  {
    var s' := Step(s, c).0;
    forall i: nat | i < BUFFERS ensures Shaped(s') && BufferOk(s', i) {
      BufferStep(s, c, i);
    }
    CleanersStep(s, c);
    forall t: Tid ensures |Owned(s', t)| <= Held(s', t) <= 4 {
      QuotaStep(s, c, t);
    }
    forall t: Tid ensures At(s', t).Wanting? ==> At(s', t).size <= SIZE && Held(s', t) <= 3 {
      WantingStep(s, c, t);
    }
  }

  // ----- Every run -----

  function Run(s: State, schedule: seq<Choice>): (State, seq<Event>)
    requires Shaped(s)
    ensures Shaped(Run(s, schedule).0)
  {
    if schedule == [] then (s, [])
    else
      var (s', events) := Run(s, schedule[..|schedule| - 1]);
      var (s'', event) := Step(s', schedule[|schedule| - 1]);
      (s'', if event.None? then events else events + [event.value])
  }

  predicate LegalRun(s: State, schedule: seq<Choice>)
    requires Shaped(s)
  {
    schedule == [] ||
      var before := schedule[..|schedule| - 1];
      LegalRun(s, before) && Legal(Run(s, before).0, schedule[|schedule| - 1])
  }

  // What is handed out: at most 1024 bytes, all zero, in a buffer that nobody had.
  ghost predicate Fresh(s: State, s': State, event: Event)
    requires Shaped(s) && Shaped(s')
  {
    event.FromBuffer? ==>
      && event.buffer < BUFFERS && event.size <= SIZE
      && s.live[event.buffer].None? && s'.live[event.buffer] == Some(Live(event.t, event.size))
      && Zero(s'.bytes, event.buffer)
  }

  lemma StepAnswers(s: State, c: Choice)
    requires Valid(s) && Legal(s, c)
    ensures var (s', event) := Step(s, c);
      Shaped(s') && (event.Some? ==> !event.value.Tripped? && Fresh(s, s', event.value))
  {
    if c.Retry? && FirstFree(s.marks, 0).Some? {
      assert BufferOk(s, FirstFree(s.marks, 0).value);
    }
  }

  // Over every run: the state is valid and no assertion fails.
  lemma {:induction false} RunKeeps(schedule: seq<Choice>)
    requires LegalRun(Start(), schedule)
    ensures var (s, events) := Run(Start(), schedule); Valid(s) && forall e :: e in events ==> !e.Tripped?
    decreases |schedule|
  {
    if schedule == [] {
      StartValid();
    } else {
      var before := schedule[..|schedule| - 1];
      RunKeeps(before);
      StepKeeps(Run(Start(), before).0, schedule[|schedule| - 1]);
      StepAnswers(Run(Start(), before).0, schedule[|schedule| - 1]);
    }
  }

  // The emergency buffers that a thread was handed during a run.
  function Grants(events: seq<Event>, t: Tid): nat {
    if events == [] then 0
    else
      var e := events[|events| - 1];
      Grants(events[..|events| - 1], t) + if e.FromBuffer? && e.t == t then 1 else 0
  }

  lemma HeldStep(s: State, c: Choice, t: Tid)
    requires Shaped(s)
    ensures var (s', event) := Step(s, c);
      Held(s', t) == Held(s, t) + if event.Some? && event.value.FromBuffer? && event.value.t == t then 1 else 0
  {
  }

  // The count of a thread never falls: it is the number of buffers that the thread was ever handed,
  // so a thread gets at most four in its life, even if it frees them.
  lemma {:induction false} HeldIsGranted(schedule: seq<Choice>, t: Tid)
    requires LegalRun(Start(), schedule)
    ensures var (s, events) := Run(Start(), schedule); Grants(events, t) == Held(s, t) <= 4
    decreases |schedule|
  {
    if schedule == [] {
      StartValid();
    } else {
      var before := schedule[..|schedule| - 1];
      HeldIsGranted(before, t);
      var (s, events) := Run(Start(), before);
      var c := schedule[|schedule| - 1];
      RunKeeps(before);
      HeldStep(s, c, t);
      QuotaStep(s, c, t);
      var event := Step(s, c).1;
      if event.Some? {
        assert (events + [event.value])[..|events|] == events;
      }
    }
  }

  // Thread t gets back, from whoever frees it, a buffer that it allocated.
  predicate GivesBack(s: State, c: Choice, t: Tid)
    requires Shaped(s)
  {
    && c.Free? && c.at % SIZE == 0 && c.at / SIZE < BUFFERS
    && s.live[c.at / SIZE].Some? && s.live[c.at / SIZE].value.owner == t
  }

  // The buffers of thread t that were freed during a run.
  function Freed(s: State, schedule: seq<Choice>, t: Tid): nat
    requires Shaped(s)
  {
    if schedule == [] then 0
    else
      var before := schedule[..|schedule| - 1];
      Freed(s, before, t) + if GivesBack(Run(s, before).0, schedule[|schedule| - 1], t) then 1 else 0
  }

  lemma FreeOwned(s: State, c: Choice, t: Tid)
    requires Shaped(s) && c.Free? && c.at % SIZE == 0 && c.at / SIZE < BUFFERS
    ensures var s' := Step(s, c).0;
      Shaped(s') && |Owned(s', t)| == |Owned(s, t)| - if GivesBack(s, c, t) then 1 else 0
  {
    var i := c.at / SIZE;
    var s' := Step(s, c).0;
    assert s'.live == s.live[i := None];
    assert Owned(s', t) == Owned(s, t) - {i};
  }

  lemma OwnedStep(s: State, c: Choice, t: Tid)
    requires Valid(s) && Legal(s, c)
    ensures var (s', event) := Step(s, c);
      Shaped(s') && |Owned(s', t)| ==
        |Owned(s, t)| + (if event.Some? && event.value.FromBuffer? && event.value.t == t then 1 else 0)
        - (if GivesBack(s, c, t) then 1 else 0)
  {
    if c.Free? {
      FreeOwned(s, c, t);
    } else if c.Retry? && !c.heap && FirstFree(s.marks, 0).Some? {
      assert BufferOk(s, FirstFree(s.marks, 0).value);
      TakeOwned(s, c.t, At(s, c.t).size, FirstFree(s.marks, 0).value, t);
    } else {
      assert Step(s, c).0.live == s.live;
      assert Owned(Step(s, c).0, t) == Owned(s, t);
    }
  }

  // What a thread was granted it still has, or it was freed.
  lemma {:induction false} GrantedOrFreed(schedule: seq<Choice>, t: Tid)
    requires LegalRun(Start(), schedule)
    ensures var (s, events) := Run(Start(), schedule); Grants(events, t) == |Owned(s, t)| + Freed(Start(), schedule, t)
    decreases |schedule|
  {
    if schedule == [] {
      assert Owned(Start(), t) == {};
    } else {
      var before, c := schedule[..|schedule| - 1], schedule[|schedule| - 1];
      var (s, events) := Run(Start(), before);
      GrantedOrFreed(before, t);
      RunKeeps(before);
      OwnedStep(s, c, t);
      var event := Step(s, c).1;
      if event.Some? {
        assert (events + [event.value])[..|events|] == events;
      }
    }
  }

  // When the heap has nothing, a request is refused exactly if it is too long or its thread was
  // granted four buffers before. That it be refused exactly if it is too long or its thread has
  // four buffers, as the source's comment puts it, is true exactly if the thread has not come to
  // its fourth grant, or none of its buffers was freed.
  lemma RefusedExactly(schedule: seq<Choice>, t: Tid, size: nat)
    requires LegalRun(Start(), schedule) && Legal(Run(Start(), schedule).0, Want(t, size, false))
    ensures var (s, events) := Run(Start(), schedule);
      var refused := Step(s, Want(t, size, false)).1 == Some(Refused(t));
      && (refused <==> size > 1024 || Grants(events, t) == 4)
      && ((refused <==> size > 1024 || |Owned(s, t)| == 4)
          <==> size > 1024 || Grants(events, t) < 4 || Freed(Start(), schedule, t) == 0)
  {
    HeldIsGranted(schedule, t);
    GrantedOrFreed(schedule, t);
  }

  // One pass of the loop in emergency_malloc: heap memory if there is any, otherwise the first of the
  // sixteen buffers that is not marked, and otherwise nothing changes.
  lemma GrantedExactly(s: State, t: Tid, heap: bool)
    requires Shaped(s) && At(s, t).Wanting?
    ensures var (s', event) := Step(s, Retry(t, heap));
      && (heap ==> event == Some(FromHeap(t, At(s, t).size)))
      && (!heap && (exists i :: 0 <= i < 16 && !s.marks[i]) ==>
          event.Some? && event.value.FromBuffer? && event.value.t == t && event.value.size == At(s, t).size
          && event.value.buffer < 16 && !s.marks[event.value.buffer] && (forall k :: 0 <= k < event.value.buffer ==> s.marks[k]))
      && (!heap && (forall i :: 0 <= i < 16 ==> s.marks[i]) ==> (s', event) == (s, None))
  {
    FirstIsFirst(s.marks, 0);
  }

  // alloc_or_die: heap memory if there is any; a thread that is not refused goes on to the loop.
  lemma WantedExactly(s: State, t: Tid, size: nat, heap: bool)
    requires Shaped(s)
    ensures var (s', event) := Step(s, Want(t, size, heap));
      && (heap ==> (s', event) == (s, Some(FromHeap(t, size))))
      && (!heap && event == None ==> At(s', t) == Wanting(size) && forall u: Tid :: u != t ==> At(s', u) == At(s, u))
      && s' == s.(pcs := s'.pcs) && (event == None || event == Some(Refused(t)) || event == Some(FromHeap(t, size)))
  {
  }

  // Freeing trips the assertion exactly for an address that is not the start of one of the sixteen
  // buffers; otherwise the buffer is cleared and given up, and after the second half unmarked.
  lemma FreedExactly(s: State, t: Tid, at: nat)
    requires Shaped(s)
    ensures var (s1, event) := Step(s, Free(t, at));
      && (event == Some(Tripped(t)) <==> !exists i :: 0 <= i < 16 && at == StartOf(i))
      && (event != Some(Tripped(t)) ==> event == None)
      && forall i: nat :: i < 16 && at == StartOf(i) ==>
        && Shaped(s1) && s1.live == s.live[i := None] && s1.marks == s.marks
        && (forall k: nat :: k < TOTAL ==> s1.bytes[k] == if at <= k < at + 1024 then 0 else s.bytes[k])
        && Step(s1, Unmark(t)).0.marks == s.marks[i := false] && At(Step(s1, Unmark(t)).0, t) == Idle
  {
    if at % SIZE == 0 && at / SIZE < BUFFERS {
      assert at == StartOf(at / SIZE);
    }
  }

  function StartOf(i: nat): nat {
    i * 1024
  }

  lemma {:induction false} FirstIsFirst(marks: seq<bool>, i: nat)
    requires i <= |marks|
    ensures var r := FirstFree(marks, i); r.Some? ==> forall k :: i <= k < r.value ==> marks[k]
    decreases |marks| - i
  {
    if i < |marks| && marks[i] {
      FirstIsFirst(marks, i + 1);
    }
  }

  // No buffer is in use or marked, and thread 0 has been granted n of them.
  ghost predicate Rests(s: State, n: nat)
    requires Shaped(s)
  {
    && At(s, 0) == Idle && Held(s, 0) == n
    && forall i: nat :: i < BUFFERS ==> s.live[i].None? && !s.marks[i]
  }

  lemma RunSnoc(schedule: seq<Choice>, c: Choice)
    requires LegalRun(Start(), schedule) && Legal(Run(Start(), schedule).0, c)
    ensures LegalRun(Start(), schedule + [c]) && Run(Start(), schedule + [c]).0 == Step(Run(Start(), schedule).0, c).0
  {
    assert (schedule + [c])[..|schedule|] == schedule;
  }

  // Thread 0 takes a buffer.
  lemma Takes(schedule: seq<Choice>, n: nat) returns (longer: seq<Choice>)
    requires LegalRun(Start(), schedule) && Rests(Run(Start(), schedule).0, n) && n < 4
    ensures LegalRun(Start(), longer)
    ensures var s, s' := Run(Start(), schedule).0, Run(Start(), longer).0;
      && At(s', 0) == Idle && Held(s', 0) == n + 1
      && s'.live == s.live[0 := Some(Live(0, 1))] && s'.marks == s.marks[0 := true]
  {
    RunSnoc(schedule, Want(0, 1, false));
    RunSnoc(schedule + [Want(0, 1, false)], Retry(0, false));
    longer := schedule + [Want(0, 1, false)] + [Retry(0, false)];
  }

  // Thread 0 takes a buffer and frees it.
  lemma TakesAndFrees(schedule: seq<Choice>, n: nat) returns (longer: seq<Choice>)
    requires LegalRun(Start(), schedule) && Rests(Run(Start(), schedule).0, n) && n < 4
    ensures LegalRun(Start(), longer) && Rests(Run(Start(), longer).0, n + 1)
  {
    var taken := Takes(schedule, n);
    RunSnoc(taken, Free(0, 0));
    RunSnoc(taken + [Free(0, 0)], Unmark(0));
    longer := taken + [Free(0, 0)] + [Unmark(0)];
  }

  // A thread that has no buffer at all, and could have any of the sixteen, is refused.
  lemma RefusedWithNone()
    ensures exists schedule ::
      LegalRun(Start(), schedule) && Rests(Run(Start(), schedule).0, 4)
      && Step(Run(Start(), schedule).0, Want(0, 1, false)).1 == Some(Refused(0))
  {
    assert Rests(Start(), 0);
    var one := TakesAndFrees([], 0);
    var two := TakesAndFrees(one, 1);
    var three := TakesAndFrees(two, 2);
    var four := TakesAndFrees(three, 3);
    assert LegalRun(Start(), four) && Rests(Run(Start(), four).0, 4)
      && Step(Run(Start(), four).0, Want(0, 1, false)).1 == Some(Refused(0));
  }

  // The byte of an allocation in use belongs to no other allocation, and no thread has more than
  // four buffers.
  lemma {:induction false} Disjoint(schedule: seq<Choice>, i: nat, j: nat, k: nat)
    requires LegalRun(Start(), schedule) && i < BUFFERS && j < BUFFERS
    ensures var s := Run(Start(), schedule).0;
      && s.live[i].Some? && s.live[j].Some?
      && i * SIZE <= k < i * SIZE + s.live[i].value.size && j * SIZE <= k < j * SIZE + s.live[j].value.size
      ==> i == j
    ensures forall t: Tid :: |Owned(Run(Start(), schedule).0, t)| <= 4
  {
    RunKeeps(schedule);
    var s := Run(Start(), schedule).0;
    assert BufferOk(s, i) && BufferOk(s, j);
    assert forall t: Tid :: |Owned(s, t)| <= Held(s, t) <= 4;
  }

  lemma {:induction false} ZeroNumber(s: seq<Byte>)
    requires forall k :: 0 <= k < |s| ==> s[k] == 0
    ensures Lsda.Little(s) == 0
  {
    if s != [] {
      ZeroNumber(s[1..]);
    }
  }

  // The first h bytes of a buffer are zero, and it is in use.
  ghost predicate Blank(s: State, buffer: nat, h: nat, live: Live)
    requires Shaped(s) && buffer < BUFFERS
  {
    s.live[buffer] == Some(live) && forall k :: buffer * SIZE <= k < buffer * SIZE + h ==> k < |s.bytes| && s.bytes[k] == 0
  }

  // A step that does not free the buffer or write to its first h bytes.
  predicate Spares(c: Choice, buffer: nat, h: nat) {
    && (c.Free? ==> c.at != buffer * SIZE)
    && (c.Write? ==> !(buffer * SIZE <= c.at < buffer * SIZE + h))
  }

  lemma BlankStays(s: State, c: Choice, buffer: nat, h: nat, live: Live)
    requires Valid(s) && Legal(s, c) && buffer < BUFFERS && h <= SIZE && Blank(s, buffer, h, live) && Spares(c, buffer, h)
    ensures var s' := Step(s, c).0; Shaped(s') && Blank(s', buffer, h, live)
  {
    if c.Retry? && FirstFree(s.marks, 0).Some? {
      assert BufferOk(s, buffer);
      assert FirstFree(s.marks, 0).value != buffer;
    }
  }

  // From the grant on, whatever any thread does in between except free the buffer or write to its
  // first h bytes, these bytes are zero.
  lemma {:induction false} BlankSince(schedule: seq<Choice>, n: nat, event: Event, h: nat)
    requires LegalRun(Start(), schedule) && n < |schedule|
    requires Step(Run(Start(), schedule[..n]).0, schedule[n]).1 == Some(event) && event.FromBuffer? && h <= event.size
    requires forall i :: n < i < |schedule| ==> Spares(schedule[i], event.buffer, h)
    ensures event.buffer < BUFFERS && event.size <= SIZE
    ensures Blank(Run(Start(), schedule).0, event.buffer, h, Live(event.t, event.size))
    decreases |schedule|
  {
    var before, c := schedule[..|schedule| - 1], schedule[|schedule| - 1];
    var s := Run(Start(), before).0;
    RunKeeps(before);
    if n == |schedule| - 1 {
      StepAnswers(s, c);
    } else {
      assert before[..n] == schedule[..n];
      BlankSince(before, n, event, h);
      BlankStays(s, c, event.buffer, h, Live(event.t, event.size));
    }
  }

  // The value last written to a byte in a run, or zero.
  function LastWritten(schedule: seq<Choice>, at: nat): Byte {
    if schedule == [] then 0
    else
      var c := schedule[|schedule| - 1];
      if c.Write? && c.at == at then c.value else LastWritten(schedule[..|schedule| - 1], at)
  }

  lemma ByteStays(s: State, c: Choice, buffer: nat, at: nat)
    requires Valid(s) && Legal(s, c) && buffer < BUFFERS && s.live[buffer].Some? && buffer * SIZE <= at < buffer * SIZE + SIZE
    requires c.Free? ==> c.at != buffer * SIZE
    ensures var s' := Step(s, c).0;
      && Shaped(s') && s'.live[buffer] == s.live[buffer]
      && s'.bytes[at] == if c.Write? && c.at == at then c.value else s.bytes[at]
  {
    if c.Retry? && FirstFree(s.marks, 0).Some? {
      assert BufferOk(s, buffer);
      assert FirstFree(s.marks, 0).value != buffer;
    }
  }

  // From the grant on, as long as the buffer is not freed, each of its bytes holds what was last written
  // to it since, or zero, whatever any thread does with other buffers.
  lemma {:induction false} HoldsLastWritten(schedule: seq<Choice>, n: nat, event: Event, k: nat)
    requires LegalRun(Start(), schedule) && n < |schedule| && k < SIZE
    requires Step(Run(Start(), schedule[..n]).0, schedule[n]).1 == Some(event) && event.FromBuffer?
    requires forall i :: n < i < |schedule| && schedule[i].Free? ==> schedule[i].at != event.buffer * SIZE
    ensures var s := Run(Start(), schedule).0;
      && event.buffer < BUFFERS && s.live[event.buffer] == Some(Live(event.t, event.size))
      && s.bytes[event.buffer * SIZE + k] == LastWritten(schedule[n + 1..], event.buffer * SIZE + k)
    decreases |schedule|
  {
    var before, c := schedule[..|schedule| - 1], schedule[|schedule| - 1];
    var s := Run(Start(), before).0;
    RunKeeps(before);
    if n == |schedule| - 1 {
      StepAnswers(s, c);
    } else {
      assert before[..n] == schedule[..n];
      HoldsLastWritten(before, n, event, k);
      ByteStays(s, c, event.buffer, event.buffer * SIZE + k);
      WrittenSnoc(schedule, n, event.buffer * SIZE + k);
    }
  }

  lemma WrittenSnoc(schedule: seq<Choice>, n: nat, at: nat)
    requires n < |schedule| - 1
    ensures var before, c := schedule[..|schedule| - 1], schedule[|schedule| - 1];
      LastWritten(schedule[n + 1..], at) == if c.Write? && c.at == at then c.value else LastWritten(before[n + 1..], at)
  {
    assert schedule[n + 1..][..|schedule| - n - 2] == schedule[..|schedule| - 1][n + 1..];
  }

  lemma BlankNumber(s: State, buffer: nat, h: nat, live: Live, offset: nat, width: nat)
    requires Shaped(s) && buffer < BUFFERS && Blank(s, buffer, h, live) && offset + width <= h <= SIZE
    ensures var at := buffer * SIZE + offset; at + width <= |s.bytes| && Lsda.Little(s.bytes[at..at + width]) == 0
  {
    var at := buffer * SIZE + offset;
    ZeroNumber(s.bytes[at..at + width]);
  }

  // A header of h bytes in an emergency buffer, with the thrown object after it: at any time from
  // the grant on, until the header is written to, every number in it reads as zero.
  lemma {:induction false} FreshHeader(schedule: seq<Choice>, n: nat, event: Event, h: nat, offset: nat, width: nat)
    requires LegalRun(Start(), schedule) && n < |schedule|
    requires Step(Run(Start(), schedule[..n]).0, schedule[n]).1 == Some(event) && event.FromBuffer? && h <= event.size
    requires forall i :: n < i < |schedule| ==> Spares(schedule[i], event.buffer, h)
    requires offset + width <= h
    ensures var s := Run(Start(), schedule).0;
      var at := event.buffer * SIZE + offset;
      at + width <= |s.bytes| && Lsda.Little(s.bytes[at..at + width]) == 0
  {
    BlankSince(schedule, n, event, h);
    BlankNumber(Run(Start(), schedule).0, event.buffer, h, Live(event.t, event.size), offset, width);
  }
}
