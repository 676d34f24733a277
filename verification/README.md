# Verified models of libcxxrt's runtime protocols

libcxxrt is a C++ runtime library: it implements the Itanium C++ ABI calls that compiled programs
make to throw and catch exceptions, to initialise function-local statics once, to cast along class
hierarchies and to demangle type names. This project models the protocols behind those calls and
proves what they are for. `dafny verify dfyconfig.toml` checks everything.

The models keep the form of the source. Objects whose fields the source updates (the exception
calls, the guard words, the emergency buffers, an exception header seen by the personality function,
the demangler's parser state) are classes whose methods are proved against functions on values; the
theorems are about those functions, over every input, every run and every schedule.

## The parts

**Exception lifetime** (`Abi`, `ExceptionRuntime`, `CaughtList`, `Machine`, `Ledger`, `Lifetime`,
`LifetimeSteps`, `LifetimeTheorems`, `ProgramMeaning`, `Landing`). `Abi` says what `__cxa_throw`, `__cxa_begin_catch`,
`__cxa_end_catch`, `__cxa_rethrow` and the `exception_ptr` calls do to headers and per-thread
globals; `ExceptionRuntime` is the same in place. `CaughtList` shows that the linked list with
signed handler counts is the run-length form of the stack of active catch blocks. `Machine` lowers
structured programs (throw, rethrow, nested try/catch, cleanups, `exception_ptr` operations) to
these calls and runs any number of threads, one atomic access to a reference count or one free per
step. `Ledger` is the bookkeeping of who holds which exception. `ProgramMeaning` says what the same
programs mean in the language, without headers, counts and frames, and shows that every run does
that; `Landing` says where an exception lands by the places of the frames that it was thrown on.

**Handler search** (`Leb128`, `Lsda`, `CallSites`, `Actions`, `ActionTable`, `EncodedTables`,
`Personality`, `TwoPhase`, `Unwinder`, `Matching`). LEB128 numbers, the header, the call-site table,
the action table and the type table are read byte by byte; `Actions` is the meaning of a decoded
action chain. `Personality` is the personality function on those bytes, and `EncodedTables` shows
what it reads in tables as a compiler writes them. `TwoPhase` raises exceptions through stacks of
frames whose cleanups raise and catch further exceptions; `Unwinder` does so in place, on frames of
bytes, with every answer from the personality function. `Matching` ties the matching of types to the
casts. Types and addresses are those of the primary exception and the cached results those of the
header that was raised, so the theorems cover primary and dependent exceptions alike.

**Guards** (`Guard`, `DoubleGuard`, `GuardWords`). The one-word guard, the two-word guard that
refines it, and both as objects. A step is one atomic load, store or compare-exchange; a
compare-exchange may fail without cause.

**Casts** (`Casts`, `Qualifiers`). The depth-first upcast over class graphs with virtual bases,
`cast_to`, `__dynamic_cast`, and the matching of pointer types in catch clauses.

**Demangler** (`TypeParser`, `DemangleRoundTrip`, `Demangling`, `Candidates`, `Demangler`). The type
parser on builtin types, source names with template arguments, and qualifiers, its round trip with a
mangler and a printer, and what it records for later references.

**Emergency buffers** (`EmergencyPool`, `PoolMemory`, `HeaderMemory`). The sixteen buffers that
exception headers come from when `calloc` fails, and the header that the throw path finds in them.

## Where the code and its promises differ

* The call-site loop runs while the position is at most the end of the table, so an address that no
  record covers and none starts after is looked up in the bytes of the action table.
  `CallSites.ScanExact` says exactly when the scan is right, `CallSites.RunsInto` that for every other
  address a record spelled by the action bytes is taken, and `CallSites.RunsOffWrong` is an instance.
* A digit of a LEB128 number is shifted as an `int`; `Leb128.UlebRoundTrip` and
  `Leb128.SlebRoundTrip` give the exact ranges.
* A frame whose exception specification allows an exception that passes through it stores its own
  adjusted pointer again in the second phase (`TwoPhase.CaughtPointer`, `TwoPhase.WrongPointer`).
* A cleanup is entered with selector zero, unless a specification that allows the exception follows it
  in its chain: then with the filter of that specification, as if it had been violated
  (`TwoPhase.CleanupSelected`).
* The comment on `emergency_malloc` says that it fails if the thread already has four buffers. The
  count is never lowered, so it fails if the thread was ever granted four (`EmergencyPool.HeldIsGranted`).
  `EmergencyPool.RefusedExactly` says exactly when the comment is right, and
  `EmergencyPool.RefusedWithNone` is a run that ends with a thread refused although no buffer is in use.
* The assertion at the end of `DoubleWordGuard::unlock` reads the init word after the lock has been
  given up. It fails after an abort exactly when some thread has released meanwhile
  (`DoubleGuard.AssertMeaning`, `DoubleGuard.AbortAssertFails`).
* Catch clauses accept some types that sections 4.4, 4.10 and 15.3 of the C++11 standard do not let
  them catch: ambiguous or inaccessible bases, pointers to functions where the handler has a pointer
  to void, void and base classes behind const levels of pointers, and pointers where the handler has
  a pointer to member. `Qualifiers.AgreesExactly` says for which handlers the code and the standard
  agree, `Qualifiers.VoidAgrees` and `Qualifiers.DeepExcess` for which thrown types they do not;
  `Qualifiers.CatchesTooMuch` has instances. An ambiguous upcast is not refused either
  (`Casts.AmbiguousUpcast`).
* Catch clauses refuse some types that section 4.4 lets them catch: those whose conversion adds
  qualifiers below a pointer to member. `Qualifiers.RefusesExactly` says that these are all;
  `Qualifiers.CatchesTooLittle` is an instance.
* A null pointer that is caught as a pointer to a base need not be null any more, although section
  4.10 says so: the offset of the base is added, and for a virtual base memory at the null pointer is
  read. `Qualifiers.NullCatch` says exactly when it stays null; `Qualifiers.NullMoves` is an instance.
* A template whose name has more than eight characters and "operator" in it does not read its own
  arguments. As a template argument it gets them back from the next turn of the loop over the
  arguments, after any qualifiers; elsewhere they are lost. `Demangling.RoundTrip` says exactly which
  types come back in their printed form, `Demangling.DemangleMeans` what becomes of all others.

## Model

| member | source | states |
|---|---|---|
| CaughtList.RunsExact | src/exception.cc:1265-1310 | expanding the run-length form of a stack of active catch blocks gives the stack back |
| CaughtList.RunsDistinct | src/exception.cc:1265-1310 | no exception sits in two entries of the caught list when its catch blocks are adjacent |
| CaughtList.BeginCatchPushes | src/exception.cc:1261-1310 | begin_catch of an exception in flight pushes one catch block: the list becomes the run-length form of the longer stack, and counts are negative exactly for exceptions still in flight |
| CaughtList.EndCatchPops | src/exception.cc:1334-1393 | end_catch pops the innermost catch block and asks for a release exactly when that was the last block of an exception not in flight |
| CaughtList.RethrowKeeps | src/exception.cc:882-932 | rethrow leaves the stack alone and puts the innermost exception in flight; it is refused exactly if there is none or it is already in flight |
| CaughtList.ThrowKeeps | src/exception.cc:823-831 | a throw leaves the stack alone and puts a new exception with count zero in flight |
| CaughtList.ThrowDependentKeeps | src/exception.cc:833-848 | the same for a dependent exception |
| CaughtList.RepresentsFrame | src/exception.cc:1265-1310 | what other threads do to other headers, and to reference counts, does not disturb a caught list |
| ExceptionRuntime.Calls.ThreadInfo | src/exception.cc:475-492 | globals are created on first use and kept afterwards |
| ExceptionRuntime.Calls.Throw | src/exception.cc:780-831 | in place on a zeroed header, __cxa_throw gives the state that Abi.Throw specifies |
| ExceptionRuntime.Calls.RethrowPrimary | src/exception.cc:833-848 | in place, a dependent exception is set up as Abi.ThrowDependent specifies, taking one reference on the primary |
| ExceptionRuntime.Calls.IncrementRefcount | src/exception.cc:861-867 | adds one reference to a primary and leaves a dependent alone |
| ExceptionRuntime.Calls.BeginCatch | src/exception.cc:1254-1310 | in place, the state after __cxa_begin_catch is that of Abi.BeginCatch |
| ExceptionRuntime.Calls.EndCatch | src/exception.cc:1334-1393 | in place, the state after __cxa_end_catch, with the release it asks for carried out and the destroyed object recorded; the assertion fails exactly if nothing is caught |
| ExceptionRuntime.Calls.ReleaseException | src/exception.cc:701-746 | releases one reference, destroys the primary at zero, frees a dependent header in any case |
| ExceptionRuntime.Calls.Rethrow | src/exception.cc:882-932 | in place, __cxa_rethrow succeeds exactly when the current exception has a positive count, and leaves everything alone otherwise |
| ExceptionRuntime.Calls.CurrentPrimary | src/exception.cc:850-859 | returns the primary of the current exception with one more reference, or null |
| LifetimeSteps.StepKeeps | src/exception.cc:721-746 | no step of any thread breaks the invariant of all threads or touches a freed header |
| LifetimeTheorems.Safety | src/exception.cc:823-932 | every reachable state of every set of programs satisfies the invariant and no freed header is touched on the way |
| LifetimeTheorems.CountIsHolders | src/exception.cc:721-746 | in every interleaving the reference count of a live primary is the number of its holders: its unfinished throw, live dependents, exception_ptrs, decrements under way |
| LifetimeTheorems.DestroyedExactlyOnce | src/exception.cc:721-735 | an exception object is destroyed at most once, and has been destroyed exactly when nobody holds it and nobody is about to destroy it |
| LifetimeTheorems.UnreferencedIsDestroyed | src/exception.cc:1385-1392 | an exception that its thread neither has caught nor in flight, and that nothing refers to, has been destroyed |
| LifetimeTheorems.StructuredRun | src/exception.cc:823-932 | a structured statement leaves the caught list as it found it, raises uncaughtExceptions by one exactly if it exits by exception, and has destroyed every exception it created that is not in flight or referred to |
| LifetimeTheorems.ProgramEnds | src/exception.cc:1334-1393 | a finished thread has nothing caught and a zero uncaught count |
| LifetimeTheorems.RethrowRefused | src/exception.cc:890-910 | exactly when a rethrow in a program leads to terminate or to the failed assertion |
| LifetimeTheorems.HaltsExactly | src/exception.cc:1339-1344 | a step stops a run exactly if the thread aborts, throws what no frame handles, rethrows what is refused or unhandled, or an exception leaves a cleanup; so the assertion of __cxa_end_catch never fails |
| LifetimeTheorems.ReleaseRuns | src/exception.cc:721-746 | run without interference, the pending steps of a release amount to releaseException |
| ProgramMeaning.StepFollows | src/exception.cc:1261-1393 | what a step of a thread is seen to do, followed by anything, is what the program had left to do exactly if that is what it has left to do after the step |
| ProgramMeaning.RunReplays | src/exception.cc:850-867 | in every interleaving exception_ptr variables behave as variables: a read gives what was last assigned, object and type |
| ProgramMeaning.RunMeans | src/exception.cc:1015-1086 | in every run of every set of programs, what each thread was seen to do (raise, enter and leave handlers, run cleanups, assign and read) is what its program means so far, and the whole of it when the thread has finished |
| ProgramMeaning.RunCompletes | src/exception.cc:1015-1086 | a thread that is given as many turns as its program has steps has done all that it means |
| Landing.RaiseLands | src/exception.cc:1166-1243 | from a throw or rethrow on, the cleanups and the handler that the thread enters lower and lower on its stack are the armed cleanups in order and then the handler, without gaps |
| Landing.HandlerIsInnermost | src/exception.cc:1032-1040 | the handler, if it is reached, is that of the innermost try block on the stack of the throw whose clause is a catch-all or lists the type |
| Landing.WayEnters | src/exception.cc:1032-1040 | which handler is on the way of an exception, by its place on the stack |
| Landing.WayCleans | src/exception.cc:1079-1083 | which cleanups are, by their places |
| Landing.HandledExactly | src/exception.cc:1166-1198 | the search finds a handler exactly if some frame takes the type or is a cleanup that no exception may leave |
| Leb128.ReadLeb128 | src/dwarf_eh.h:156-182 | the byte loop reads what ReadFrom specifies |
| Leb128.DecodesU | src/dwarf_eh.h:156-193 | from any position and shift, the encoded number is read back exactly when the total is below 2^31 |
| Leb128.DecodesS | src/dwarf_eh.h:156-212 | the same with sign extension, for the exact signed range |
| Leb128.UlebRoundTrip | src/dwarf_eh.h:189-193 | decoding the minimal encoding of n followed by any bytes returns n and stops right after it if and only if n < 2^31 |
| Leb128.SlebRoundTrip | src/dwarf_eh.h:200-212 | the same if and only if n is in [-2^27, 2^31), or [-2^31, 2^31) where overflowing shifts keep the low bits |
| Lsda.ReadsValue | src/dwarf_eh.h:218-248 | read_value returns every encodable value from its bytes, for each encoding, and moves past it |
| Lsda.ReadsFixedCodes | src/dwarf_eh.h:57-87 | by the number of the code: the two, four or eight bytes that follow, lowest first, sign-extended to 64 bits for the signed codes, and how far the position moves |
| Lsda.ReadsOtherCodes | src/dwarf_eh.h:57-87 | the codes of LEB128 numbers read the number, negative ones as 64-bit values; all other codes are refused |
| Lsda.FindCallSite | src/dwarf_eh.h:406-460 | the scanning loop answers what FindFrom specifies |
| CallSites.FindsCallSite | src/dwarf_eh.h:416-457 | a covered ip finds the one record that covers it, with 1-biased action and landing-pad offset resolved |
| CallSites.MissesCallSite | src/dwarf_eh.h:424-428 | an ip that nothing covers, before the start of some record, finds none |
| CallSites.RunsOff | src/dwarf_eh.h:416 | for every other ip the action table is examined as one more record |
| CallSites.ScanExact | src/dwarf_eh.h:406-460 | the scan is right for every action table exactly when some record covers the ip or starts after it |
| CallSites.RunsInto | src/dwarf_eh.h:416-457 | for every such ip and every record covering it that the action bytes spell, the scan finds that record, landing pad and all |
| CallSites.RunsOffWrong | src/dwarf_eh.h:416 | a concrete table and address where the action bytes give a landing pad |
| Actions.WalkMeaning | src/exception.cc:1015-1086 | the walk gives the first matching catch or violated specification with its filter; otherwise a cleanup exactly if some filter is zero; the filter of the last record that is no catch clause; and the pointer left by the last allowing specification |
| Actions.FirstOfMeans | src/exception.cc:1056-1071 | a specification is matched by the first of its types that sees the exception, a catch-all entry included |
| Actions.SeesAll | src/exception.cc:976-987 | a catch-all stops the walk for every exception, and a specification that allows everything for none |
| ActionTable.MatchSpec | src/exception.cc:1058-1071 | the loop over a specification's types finds the first that matches |
| ActionTable.ReadRecord | src/exception.cc:1026-1030 | reads a filter and the place of the next record, displacement relative to itself |
| ActionTable.CheckActionRecord | src/exception.cc:1015-1086 | over the bytes of any finite chain the walk equals Actions.Check on the decoded records; a null record is a cleanup |
| ActionTable.ParsesHeader | src/dwarf_eh.h:338-381 | parsing an encoded header, with or without a landing-pad base and with or without a type table, finds an area that holds the call-site table |
| ActionTable.EntryNames | src/exception.cc:937-956 | a positive filter names the type at that place of the type table, counted backwards from its end |
| ActionTable.SpecNames | src/exception.cc:1058-1062 | a zero-terminated list of one-byte filters names the listed types in order |
| Personality.ExceptionHeader.constructor | src/exception.cc:679-684 | a fresh header has nothing cached |
| Personality.ExceptionHeader.Personality | src/exception.cc:1113-1244 | in place, parsing the bytes of the tables anew in each phase, the function answers and caches what Search, Clean and Handle say about the frame they describe |
| EncodedTables.ChainReads | src/exception.cc:1015-1086 | a chain of catch, specification and cleanup records written in the tables reads as the actions meant, with the types of the type table |
| EncodedTables.EncodedDescribes | src/exception.cc:1166-1198 | for every encoded header, sorted call-site table, action chain and type table, at a covered ip the function reads the landing pad and the actions meant |
| EncodedTables.EncodedMisses | src/exception.cc:1170-1178 | at an ip that nothing covers, before the start of some record, it reads that there is no record |
| TwoPhase.CheckMeaning | src/exception.cc:1015-1086 | when a frame catches, asks for a cleanup or neither, and with which selector and pointer |
| TwoPhase.SearchMeaning | src/exception.cc:1166-1198 | the search ends at the innermost frame that catches or has no record, with that frame's landing pad and selector cached, or nothing cached |
| TwoPhase.CleanMeaning | src/exception.cc:1205-1214 | before the handler the second phase stops exactly at frames that ask for a cleanup, with its landing pad and selector, and changes nothing in the header but the adjusted pointer |
| TwoPhase.CleanupSelected | src/exception.cc:1079-1083 | the selector of a cleanup is zero without a chain, and otherwise the filter of the last record of the chain that is no catch clause |
| TwoPhase.UnwindMeaning | src/exception.cc:1205-1243 | the second phase enters exactly the cleanups before the handler, each with its selector, and then the handler with the cached results, whatever the cleanups raise and catch |
| TwoPhase.RaiseMeaning | src/exception.cc:1113-1244 | a raise in two phases enters exactly the cleanups and the handler that the stack is for, or the cleanups before terminate; at the handler nothing is cached and the headers of exceptions in flight around it are untouched |
| TwoPhase.RunMeaning | src/exception.cc:1113-1244 | the same for any sequence of raises, as in a cleanup |
| TwoPhase.CatchAllCatches | src/exception.cc:976-987 | a raise over a stack with a catch-all, and no frame without a record before it, finds a handler there or further in, and lands there unless a landing pad is missing or a cleanup does not complete |
| TwoPhase.CaughtPointer | src/exception.cc:1211-1212 | begin_catch gets the pointer adjusted for the matched clause unless a crossed frame with a landing pad has an allowing specification; then the last of these decides alone |
| TwoPhase.WrongPointer | src/exception.cc:1058-1071 | a concrete stack where the handler gets another type's pointer |
| Unwinder.Headers.Ask | src/exception.cc:1113-1244 | one call of the personality function changes one header as specified and no other |
| Unwinder.Headers.Search | src/exception.cc:1166-1198 | asking frame after frame gives the search phase of TwoPhase |
| Unwinder.Headers.Unwind | src/exception.cc:1205-1243 | asking frame after frame, and running the cleanups entered, gives the second phase of TwoPhase |
| Unwinder.Headers.Raise | src/exception.cc:780-800 | a raise on headers in place, through frames of bytes, is a raise of TwoPhase on the places that the bytes describe |
| Unwinder.RaiseException | src/exception.cc:1113-1244 | on stacks whose tables are bytes, what is entered is what the stack is for, whatever the cleanups raise and catch |
| Unwinder.WrittenDescribed | src/exception.cc:1113-1244 | where every frame has encoded tables (header, call sites, action chain, type table) or none, also in cleanups, the tables say what is meant, so RaiseException is about all such stacks |
| Matching.CaughtView | src/exception.cc:1309 | the pointer that begin_catch returns is the one that __do_catch gives the matched clause, and for a catch-all the object itself, if no crossed frame stores one again |
| Matching.CaughtBase | src/exception.cc:964-1006 | for a class caught as its base, or a pointer to it, that is the address of the base subobject, whichever path leads there |
| Guard.Words | src/guard.cc:110-128 | the mark test recognises exactly the initialised word in each layout |
| Guard.StepKeeps | src/guard.cc:135-179 | no step of any thread breaks mutual exclusion or the meaning of the word |
| Guard.StepProgress | src/guard.cc:316-366 | how each kind of step moves the word and the construction in progress |
| Guard.RunKeeps | src/guard.cc:316-366 | in every run: constructions exclude each other; 1-returns equal aborts plus releases plus the one in progress; 0 is returned only after a release and 1 never after it |
| Guard.FirstByteMeaning | src/guard.cc:135-142 | in every run the byte that compiled code tests is non-zero exactly if some thread has released |
| Guard.AcquireReturns | src/guard.cc:316-350 | unless another thread holds the guard, an acquire returns within three steps: 0 if initialised, else 1 |
| Guard.AcquireWaits | src/guard.cc:344-348 | while another thread holds it, an acquire goes on trying and changes nothing |
| DoubleGuard.StepKeeps | src/guard.cc:219-254 | no step breaks the lock's exclusion or what threads know of the init word, which changes only under the lock |
| DoubleGuard.StepRefines | src/guard.cc:219-254 | every step of the two-word guard is one step of the one-word guard with the same event, or none |
| DoubleGuard.RunRefines | src/guard.cc:186-264 | every run maps to a run of the one-word guard with the same trace |
| DoubleGuard.RunKeeps | src/guard.cc:316-366 | the run theorem of the one-word guard, for the two-word guard |
| DoubleGuard.FirstByteMeaning | src/guard.cc:199-204 | the same for the first byte of the two-word guard |
| DoubleGuard.AcquireReturns | src/guard.cc:219-241 | the same within four steps, with the lock given back when the guard turns out to be initialised |
| DoubleGuard.HolderReturns | src/guard.cc:248-254 | a release or abort gives the guard up in two steps, with both words as they should be |
| DoubleGuard.TakesRetire | src/guard.cc:219-241 | once initialised, the number of later lock takings is the number of threads that left the acquire loop, so at most one for each thread past the fast check |
| DoubleGuard.AssertMeaning | src/guard.cc:248-254 | in every run the final assertion holds after a release, and after an abort exactly if no thread has released before the byte is read |
| DoubleGuard.AbortAssertFails | src/guard.cc:248-254 | a reachable run in which it fails |
| GuardWords.SingleWordGuard.FastCheck | src/guard.cc:316-323 | in place, the load at the head of acquire |
| GuardWords.SingleWordGuard.CompareExchange | src/atomic.h:87-100 | succeeds only on the expected word, may fail without cause, and reports the word it found |
| GuardWords.SingleWordGuard.TryLock | src/guard.cc:150-169 | in place, one try_lock is one step of the specification |
| GuardWords.SingleWordGuard.Unlock | src/guard.cc:135-142 | in place, one store releases and marks or clears |
| GuardWords.SingleWordGuard.Execute | src/guard.cc:316-366 | running a schedule in place gives the specified final state and trace |
| GuardWords.DoubleWordGuard.FastCheck | src/guard.cc:316-323 | in place, the load of the init word |
| GuardWords.DoubleWordGuard.TakeLock | src/guard.cc:219-223 | in place, the compare-exchange of the lock word |
| GuardWords.DoubleWordGuard.LookAgain | src/guard.cc:224-238 | in place, the check under the lock decides between 1 and giving back |
| GuardWords.DoubleWordGuard.StoreInit | src/guard.cc:248-251 | in place, the store of the init word |
| GuardWords.DoubleWordGuard.StoreLock | src/guard.cc:252 | in place, the store that gives up the lock |
| GuardWords.DoubleWordGuard.Execute | src/guard.cc:316-366 | running a schedule in place gives the specified final state and trace |
| Casts.DoUpcast | src/dynamic_cast.cc:146-184 | the loop moves the pointer as Upcast says and leaves it alone on failure |
| Casts.SubobjectAddress | src/typeinfo.h:177-221 | paths to the same subobject give the same address when each virtual base has one location |
| Casts.UpcastReaches | src/dynamic_cast.cc:127-184 | on every acyclic graph the upcast succeeds exactly when some path leads to the target |
| Casts.UpcastMeaning | src/dynamic_cast.cc:127-184 | when the target names one subobject the upcast gives its address, whichever path leads to it |
| Casts.UpcastFound | src/dynamic_cast.cc:146-184 | the search answers with the address at the end of a path to the target, which the classes alone determine, or not at all |
| Casts.LaidOutLocated | src/dynamic_cast.cc:158-174 | if every subobject finds its virtual bases through the slots that the packed words name, each virtual base is in one place |
| Casts.UpcastPlace | src/dynamic_cast.cc:146-184 | in such an object the upcast leads where the offsets and the homes of the virtual bases say |
| Casts.UpcastToVirtual | src/dynamic_cast.cc:158-174 | an upcast to a virtual base leads to its home, and one past it goes on from there |
| Casts.UpcastComplete | src/dynamic_cast.cc:146-184 | the search finds something whenever a path exists |
| Casts.AmbiguousUpcast | src/dynamic_cast.cc:146-184 | a graph with two target subobjects where the search does not refuse |
| Casts.NullUpcast | src/dynamic_cast.cc:146-184 | the upcast keeps a null pointer null, whatever is in memory, exactly if no step of its path is to a virtual base and the offsets sum to zero |
| Casts.CastToIsUpcast | src/dynamic_cast.cc:110-144 | cast_to gives the upcast pointer, or null where the upcast fails |
| Casts.DynamicCastMeaning | src/dynamic_cast.cc:200-210 | from every polymorphic subobject the dynamic cast is the complete object's upcast to the destination |
| Qualifiers.CatchIsRule | src/dynamic_cast.cc:49-108 | which handlers accept which thrown types, at any depth, for any pointees, and with which pointer, as long as no pointer to member meets a pointer |
| Qualifiers.CatchExactly | src/dynamic_cast.cc:49-108 | the same for all handlers: where a pointer to member meets a pointer it is taken for one, if all levels above are const |
| Qualifiers.MemberCatch | src/dynamic_cast.cc:66-108 | a handler for a pointer to member catches its own type, and everything that a handler for the plain pointer catches |
| Qualifiers.DeepExcess | src/dynamic_cast.cc:88-107 | a handler for a pointer to pointer exceeds the standard exactly where it catches without a qualification conversion, which takes const outer levels and void or a base class at the end |
| Qualifiers.AgreesExactly | src/dynamic_cast.cc:49-108 | a handler catches exactly what the standard says if and only if it is sound: a condition on its shape and on the classes |
| Qualifiers.PointerCatch | src/dynamic_cast.cc:66-108 | a handler with a non-class, non-void pointee accepts exactly the qualification conversions |
| Qualifiers.VoidPointerCatch | src/dynamic_cast.cc:101-105 | a handler for a pointer to void accepts every pointer that is not more qualified |
| Qualifiers.ClassPointerCatch | src/dynamic_cast.cc:49-63 | a handler for a pointer to a class accepts pointers to classes that upcast to it, with the upcast pointer |
| Qualifiers.VoidAgrees | src/dynamic_cast.cc:101-105 | a handler for a pointer to void catches what the standard says except that it catches pointers to functions |
| Qualifiers.RefusesExactly | src/dynamic_cast.cc:66-108 | what the standard catches and the code refuses are exactly the qualification conversions that change what a pointer to member leads to |
| Qualifiers.CatchesTooLittle | src/dynamic_cast.cc:66-108 | one such conversion |
| Qualifiers.NullCatch | src/dynamic_cast.cc:107 | a null pointer caught as a pointer to a base is null for the handler exactly if the path to the base is not virtual and its offsets sum to zero |
| Qualifiers.NullMoves | src/dynamic_cast.cc:107 | a null pointer caught as a pointer to the second base is not null |
| Qualifiers.CatchesTooMuch | src/dynamic_cast.cc:66-108 | four conversions accepted beyond the standard's |
| DemangleRoundTrip.Heads | src/libelftc_dem_gnu3.c:2880-3296 | what the parser makes of the first characters of each form of type |
| DemangleRoundTrip.PushesSuffix | src/libelftc_dem_gnu3.c:820-1069 | qualifiers are written innermost first |
| DemangleRoundTrip.NumberReads | src/libelftc_dem_gnu3.c:2278-2308 | the decimal form of a length is read back |
| DemangleRoundTrip.SnameReads | src/libelftc_dem_gnu3.c:2459-2484 | a length-prefixed name is written and skipped |
| DemangleRoundTrip.NameReads | src/libelftc_dem_gnu3.c:2078-2141 | a name with its template arguments is read and written whole, or refused |
| DemangleRoundTrip.ArgsRead | src/libelftc_dem_gnu3.c:2739-2788 | an argument list is read and written, and refused exactly if an argument is or the limit is passed |
| DemangleRoundTrip.TypeReads | src/libelftc_dem_gnu3.c:2829-3347 | any type inside any text is read up to its end and written in its printed form, or refused |
| Demangling.DemangleMeans | src/libelftc_dem_gnu3.c:553-560 | what demangling writes for the mangled form of any type, and when it fails |
| Demangling.ArgIsPrinted | src/libelftc_dem_gnu3.c:2739-2788 | what is written for a template argument is its printed form exactly if the argument is faithful |
| Demangling.RoundTrip | src/libelftc_dem_gnu3.c:553-560 | demangling a mangled type gives exactly its printed form if and only if a syntactic condition holds: references, turns of argument lists, anonymous namespace, and operator-named templates only as plain arguments |
| Demangling.StandardRoundTrip | src/libelftc_dem_gnu3.c:2884-3296 | the same with the codes and words of the source |
| Demangling.SimpleRoundTrip | src/libelftc_dem_gnu3.c:553-560 | without special names, at most 130 arguments and no reference directly over a reference are enough |
| Demangling.BuiltinsRead | src/libelftc_dem_gnu3.c:2884-3296 | each code of a builtin type, by its letters, is demangled to its words |
| Demangling.QualifiersRead | src/libelftc_dem_gnu3.c:820-1069 | each code of a qualifier, in front of any such type, adds its words behind it |
| Candidates.TypeGrows | src/libelftc_dem_gnu3.c:3310-3347 | whatever is parsed, every type read except a bare builtin one is afterwards found among the substitution candidates, and no candidate is lost |
| Candidates.ArgsGrow | src/libelftc_dem_gnu3.c:2739-2788 | every argument read is afterwards found among the template arguments |
| Demangling.OperatorAlone | src/libelftc_dem_gnu3.c:2110-2113 | on its own, a template with a longer name with "operator" in it loses its arguments |
| Demangling.OperatorWithin | src/libelftc_dem_gnu3.c:2773-2785 | as a template argument it keeps them |
| Demangler.Parser.Find | src/libelftc_dem_gnu3.c:178-191 | finds a string of which the sought one is a prefix |
| Demangler.Parser.Push | src/libelftc_dem_gnu3.c:758-774 | appends a piece to the output and refuses an empty one |
| Demangler.Parser.PushCandidate | src/libelftc_dem_gnu3.c:786-798 | adds a substitution candidate unless one starts with it |
| Demangler.Parser.SubStr | src/libelftc_dem_gnu3.c:428-455 | joins the pieces from a place on: the output's text after the text before that place |
| Demangler.Parser.PushTypeQualifier | src/libelftc_dem_gnu3.c:820-1069 | in place, the loop writes qualifiers and candidates as specified |
| Demangler.Parser.ReadNumber | src/libelftc_dem_gnu3.c:2278-2308 | in place, reads an optionally negative, saturating decimal |
| Demangler.Parser.ReadSname | src/libelftc_dem_gnu3.c:2459-2484 | in place, reads a source name as specified |
| Demangler.Parser.ReadName | src/libelftc_dem_gnu3.c:2078-2141 | in place, reads a name and its template arguments as specified |
| Demangler.Parser.ReadTmplArgs | src/libelftc_dem_gnu3.c:2739-2788 | in place, the argument loop reads as specified |
| Demangler.Parser.ReadType | src/libelftc_dem_gnu3.c:2829-3347 | in place, the parser reads a type as specified |
| Demangler.DemangleType | src/libelftc_dem_gnu3.c:538-560 | the parser run in place returns what Demangling.Demangle specifies, of which RoundTrip speaks |
| EmergencyPool.StepKeeps | src/exception.cc:557-636 | no legal step breaks the invariant: marked exactly while in use or being cleared, zero unless in use, quotas kept |
| EmergencyPool.RunKeeps | src/exception.cc:536-671 | every run of any number of threads keeps it, and the assertion never fails on a buffer in use |
| EmergencyPool.Disjoint | src/exception.cc:581-599 | allocations in use never share a byte, and no thread has more than four |
| EmergencyPool.HeldIsGranted | src/exception.cc:562-597 | the per-thread count is the number of buffers ever handed to the thread, at most four |
| EmergencyPool.GrantedOrFreed | src/exception.cc:562-597 | what a thread was granted it still has, or it was freed |
| EmergencyPool.RefusedExactly | src/exception.cc:551-563 | in every run a request is refused exactly if it is too long or its thread was granted four buffers; and that agrees with the comment exactly if the thread was granted fewer, or none of its buffers was freed |
| EmergencyPool.RefusedWithNone | src/exception.cc:551-563 | a run of four grants and four frees, after which the thread is refused |
| EmergencyPool.GrantedExactly | src/exception.cc:566-598 | a pass of the loop takes heap memory, or else the first of the sixteen buffers that is not marked, or else waits |
| EmergencyPool.WantedExactly | src/exception.cc:638-655 | a request takes heap memory if there is any; otherwise it is refused or goes on to the loop, and nothing else changes |
| EmergencyPool.FreedExactly | src/exception.cc:609-636 | a free trips the assertion exactly for an address that starts none of the sixteen buffers; otherwise exactly that buffer is zeroed, given up, and then unmarked |
| EmergencyPool.HoldsLastWritten | src/exception.cc:609-626 | until a granted buffer is freed, each of its bytes holds what was last written to it, or zero, whatever happens to other buffers |
| EmergencyPool.BlankSince | src/exception.cc:623-626 | from a grant on, the first bytes of the buffer stay zero whatever any thread does, short of freeing it or writing to them |
| EmergencyPool.FreshHeader | src/exception.cc:623-626 | so every number in the header there reads as zero until the header is written to |
| HeaderMemory.ZeroHeader | src/exception.cc:638-655 | zeroed memory, from calloc or a buffer, is the header that the throw path and the personality function start from |
| HeaderMemory.ReachesThrowZeroed | src/exception.cc:780-831 | in every run a header in an emergency buffer reaches the throw path with handlerCount, catchTemp and the other fields zero, after the thrown object is constructed and other threads have run |
| PoolMemory.Pool.constructor | src/exception.cc:536-540 | the buffers start out zero and unmarked |
| PoolMemory.Pool.AllocOrDie | src/exception.cc:638-655 | in place, the first attempt and the two refusals |
| PoolMemory.Pool.TryAgain | src/exception.cc:566-598 | in place, one pass under the lock takes heap memory or the first unmarked buffer |
| PoolMemory.Pool.FindBuffer | src/exception.cc:611-620 | finds the buffer that starts at an address |
| PoolMemory.Pool.Clear | src/exception.cc:609-626 | in place, freeing clears exactly the bytes of the buffer |
| PoolMemory.Pool.Unmark | src/exception.cc:629-635 | in place, the buffer becomes available |

## Left out

- Thread exit and foreign-runtime cleanup (src/exception.cc:384-436) free headers without looking at reference counts.
- Foreign exceptions, forced unwinding and the foreign state of a thread: only native exceptions are modelled.
- The `exceptionType` of a dependent exception and `__cxa_current_exception_type`: matching uses the type of the primary.
- Counts and handler counts are unbounded integers; wrap-around of a 32-bit count is not modelled.
- Weak memory ordering: every atomic access is sequentially consistent.
- The unwinder itself: it is a list of frames visited in two passes. In `Machine` a handler is found by matching types directly; `TwoPhase` is where tables are searched.
- Indirect and relative pointers in exception tables, and the final resolution of type entries (src/dwarf_eh.h:256-286): a type is named by its table entry.
- The ARM exception tables, assembly, thread-local key set-up and weak pthread symbols.
- `std::uncaught_exception`, `std::exception_ptr` classes and terminate handlers beyond terminate being a final state.
- Progress of threads that sleep for an emergency buffer: a woken thread may take heap memory and leave the freed buffer to nobody.
- The clearing of a freed buffer is one step, since no other thread may use its bytes meanwhile.
- The rest of the demangler: encodings that start with _Z, array, function and pointer-to-member types, expressions, literals, vendor extensions, vector types, nested, local and operator names, and S_ and T_ references; candidates and template arguments are recorded but never read back.
- Malformed mangled names whose lengths reach beyond the string, and running out of memory in the demangler.
- DemangleRoundTrip.NameReads: source names only.
- DemangleRoundTrip.ArgsRead: types as arguments only, no literals or expressions.
- DemangleRoundTrip.TypeReads: covers the types of the fragment only, and follows the path without a delimiter for function arguments.
- Demangler.Parser.PushTypeQualifier: pushes all qualifiers; the modes of function and member types, vendor and vector qualifiers are missing.
- Demangler.Parser.ReadSname: a length beyond the end of the string fails instead of reading on, and the last source name, which only constructors and destructors use, is not recorded.
- Demangler.Parser.ReadName: substitutions, nested, local and operator names are missing.
- Demangler.Parser.ReadTmplArgs: literal and expression arguments fail.
- Demangler.Parser.ReadType: arrays, functions, members, substitutions and the delimiter path are missing.
- Demangler.DemangleType: strings that start with _Z, and the forms above, give no result.
- Whether a base class is public: the casts never look at it; it matters in `Qualifiers.AgreesExactly` only.
- Qualifiers.AgreesExactly: only for types without the marks of incomplete pointees, which the standard does not know and the code compares like qualifiers; `Qualifiers.CatchExactly` covers them.
- Destructors of thrown objects that throw: destroying the object is one step of the model, while in src/exception.cc:705-717 an exception out of the destructor leads to terminate.
- Qualifiers of arrays as pointees: an array type stands for itself, and which qualifiers its pointer records is up to the compiler. Whether a handler is a reference is not in the tables either.
- Throwing nullptr, which the standard lets every pointer handler catch.
- src/memory.cc, src/stdexcept.cc, src/auxhelper.cc, src/terminate.cc, src/noexception.cc, src/typeinfo.cc and src/cxa_atexit.c.
