// The header of an exception as bytes, and what the throw path finds in a fresh one.
module HeaderMemory {
  import opened Lists
  import Leb128
  import Lsda
  import Abi
  import ExceptionRuntime
  import Personality
  import opened EmergencyPool

  // Where the fields of __cxa_exception are, and its length. Counts of handlers and switch values
  // have four bytes, the other fields eight.
  datatype Layout = Layout(
    exceptionType: nat, handlerCount: nat, referenceCount: nat, nextException: nat,
    handlerSwitchValue: nat, catchTemp: nat, adjustedPtr: nat, length: nat)

  predicate Fits(l: Layout) {
    && l.exceptionType + 8 <= l.length && l.handlerCount + 4 <= l.length && l.referenceCount + 8 <= l.length
    && l.nextException + 8 <= l.length && l.handlerSwitchValue + 4 <= l.length && l.catchTemp + 8 <= l.length
    && l.adjustedPtr + 8 <= l.length
  }

  function Number(bytes: seq<Leb128.Byte>, at: nat, width: nat): nat
    requires at + width <= |bytes|
  {
    Lsda.Little(bytes[at..at + width])
  }

  // A four-byte int.
  function Int(bytes: seq<Leb128.Byte>, at: nat): int
    requires at + 4 <= |bytes|
  {
    Leb128.Wrap32(Number(bytes, at, 4))
  }

  // The fields of the exception calls. The null pointer is zero.
  function HeaderAt(bytes: seq<Leb128.Byte>, at: nat, l: Layout): Abi.Header
    requires Fits(l) && at + l.length <= |bytes|
  {
    var next := Number(bytes, at + l.nextException, 8);
    Abi.Header(
      Abi.Primary(Number(bytes, at + l.exceptionType, 8)),
      Int(bytes, at + l.handlerCount),
      Number(bytes, at + l.referenceCount, 8),
      if next == 0 then None else Some(next))
  }

  // The fields of the personality function.
  function CacheAt(bytes: seq<Leb128.Byte>, at: nat, l: Layout): Personality.Cache
    requires Fits(l) && at + l.length <= |bytes|
  {
    Personality.Cache(
      Int(bytes, at + l.handlerSwitchValue), Number(bytes, at + l.catchTemp, 8), Number(bytes, at + l.adjustedPtr, 8))
  }

  ghost predicate AllZero(bytes: seq<Leb128.Byte>, at: nat, length: nat) {
    at + length <= |bytes| && forall k :: at <= k < at + length ==> bytes[k] == 0
  }

  lemma NumberZero(bytes: seq<Leb128.Byte>, at: nat, length: nat, offset: nat, width: nat)
    requires AllZero(bytes, at, length) && offset + width <= length
    ensures at + offset + width <= |bytes| && Number(bytes, at + offset, width) == 0
  {
    ZeroNumber(bytes[at + offset..at + offset + width]);
  }

  // A header of zero bytes, as calloc gives it, is what the throw path asks for.
  lemma ZeroHeader(bytes: seq<Leb128.Byte>, at: nat, l: Layout)
    requires Fits(l) && AllZero(bytes, at, l.length)
    ensures HeaderAt(bytes, at, l) == ExceptionRuntime.ZEROED && CacheAt(bytes, at, l) == Personality.Cache(0, 0, 0)
  {
    NumberZero(bytes, at, l.length, l.exceptionType, 8);
    NumberZero(bytes, at, l.length, l.handlerCount, 4);
    NumberZero(bytes, at, l.length, l.referenceCount, 8);
    NumberZero(bytes, at, l.length, l.nextException, 8);
    NumberZero(bytes, at, l.length, l.handlerSwitchValue, 4);
    NumberZero(bytes, at, l.length, l.catchTemp, 8);
    NumberZero(bytes, at, l.length, l.adjustedPtr, 8);
  }

  // A header that a run places in an emergency buffer reaches the throw path zeroed, however much
  // later: other threads may take, write and free other buffers meanwhile, and the thrown object
  // may be constructed after the header, as long as nobody writes to the header or frees it.
  lemma {:induction false} ReachesThrowZeroed(schedule: seq<Choice>, n: nat, event: Event, l: Layout)
    requires Fits(l)
    requires LegalRun(Start(), schedule) && n < |schedule|
    requires Step(Run(Start(), schedule[..n]).0, schedule[n]).1 == Some(event) && event.FromBuffer? && l.length <= event.size
    requires forall i :: n < i < |schedule| ==> Spares(schedule[i], event.buffer, l.length)
    ensures var bytes := Run(Start(), schedule).0.bytes;
      var at := event.buffer * SIZE;
      && at + l.length <= |bytes|
      && HeaderAt(bytes, at, l) == ExceptionRuntime.ZEROED && CacheAt(bytes, at, l) == Personality.Cache(0, 0, 0)
  {
    BlankSince(schedule, n, event, l.length);
    ZeroHeader(Run(Start(), schedule).0.bytes, event.buffer * SIZE, l);
  }
}
