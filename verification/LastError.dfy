/** The per-thread last error: recorded at the boundary of every call, read in two calls. */
module LastError {
  import opened Options

  const ISIZE_MAX: int := 0x7FFF_FFFF_FFFF_FFFF
  const MSI_SUCCESS: int := 0
  const MSI_ERROR_BUFFER_TOO_SMALL: int := -8
  const MSI_ERROR_PANIC: int := -99

  /** The UTF-8 bytes of a message; no allocation is longer than this. */
  type Message = b: seq<bv8> | |b| <= ISIZE_MAX

  datatype Stored = Stored(code: int, message: Message)

  const NO_ERROR := Stored(MSI_SUCCESS, [])

  /** A panic carries a message or something else. */
  datatype Payload = Said(message: Message) | Other

  /** How the closure inside a boundary ends. */
  datatype Outcome = Returned(code: int) | Failed(code: int, message: Message) | Panicked(payload: Payload)

  /** What a thread does that concerns its last error. A closure may itself do such
      things, boundaries included, before it ends. */
  datatype Event =
    | Boundary(inside: seq<Event>, outcome: Outcome)
    | Set(code: int, message: Message)
    | Clear
    | Query

  /** What the boundary records, given the message for panics that carry none. */
  function Recorded(o: Outcome, unknown: Message): Stored {
    match o
    case Returned(_) => NO_ERROR
    case Failed(code, message) => Stored(code, message)
    case Panicked(Said(message)) => Stored(MSI_ERROR_PANIC, message)
    case Panicked(Other) => Stored(MSI_ERROR_PANIC, unknown)
  }

  /** A boundary's closure runs first and may change the stored error; then the
      boundary records how it ended. */
  function AfterOne(e: Event, stored: Stored, unknown: Message): Stored {
    match e
    case Boundary(_, outcome) => Recorded(outcome, unknown)
    case Set(code, message) => Stored(code, message)
    case Clear => NO_ERROR
    case Query => stored
  }

  /** The stored error after a run of events. */
  function After(events: seq<Event>, stored: Stored, unknown: Message): Stored {
    if events == [] then stored
    else After(events[1..], AfterOne(events[0], stored, unknown), unknown)
  }

  lemma AfterStep(e: Event, rest: seq<Event>, stored: Stored, unknown: Message)
    ensures After([e] + rest, stored, unknown) == After(rest, AfterOne(e, stored, unknown), unknown)
  {
    assert ([e] + rest)[1..] == rest;
  }

  class ThreadError {
    var stored: Stored
    const unknown: Message

    constructor (unknown: Message)
      ensures stored == Stored(0, []) && this.unknown == unknown
    {
      stored := NO_ERROR;
      this.unknown := unknown;
    }

    method SetLastError(code: int, message: Message)
      modifies this
      ensures stored == Stored(code, message)
    {
      stored := Stored(code, message);
    }

    method ClearLastError()
      modifies this
      ensures stored == Stored(0, [])
    {
      stored := NO_ERROR;
    }

    /** Copies the message and a NUL into the buffer if there is one with room. */
    method GetLastErrorMessage(buffer: array?<bv8>, capacity: nat, wantWritten: bool)
      returns (code: int, written: Option<nat>)
      requires buffer != null ==> capacity <= buffer.Length
      modifies buffer
      ensures written == if wantWritten then Some(|stored.message| + 1) else None
      ensures code == if buffer == null || capacity < |stored.message| + 1 then -8 else 0
      ensures buffer != null ==>
                buffer[..] == if code == 0
                              then stored.message + [0] + old(buffer[..])[|stored.message| + 1..]
                              else old(buffer[..])
    {
      var message := stored.message;
      var required := |message| + 1;  // below the limit at which the addition saturates
      written := if wantWritten then Some(required) else None;
      if buffer == null || capacity < required {
        return MSI_ERROR_BUFFER_TOO_SMALL, written;
      }
      forall k | 0 <= k < |message| {
        buffer[k] := message[k];
      }
      buffer[|message|] := 0;
      code := MSI_SUCCESS;
    }

    /** A boundary around a closure that does `inside` and then ends. */
    method FfiBoundary(inside: seq<Event>, outcome: Outcome) returns (code: int)
      modifies this
      ensures stored == match outcome
                        case Returned(_) => Stored(0, [])
                        case Failed(c, message) => Stored(c, message)
                        case Panicked(Said(message)) => Stored(-99, message)
                        case Panicked(Other) => Stored(-99, unknown)
      ensures code == match outcome
                      case Returned(c) => c
                      case Failed(c, _) => c
                      case Panicked(_) => -99
      decreases inside, 1
    {
      Perform(inside);
      match outcome {
        case Returned(c) =>
          ClearLastError();
          code := c;
        case Failed(c, message) =>
          SetLastError(c, message);
          code := c;
        case Panicked(payload) =>
          SetLastError(MSI_ERROR_PANIC, if payload.Said? then payload.message else unknown);
          code := MSI_ERROR_PANIC;
      }
    }

    method Perform(events: seq<Event>)
      modifies this
      ensures stored == After(events, old(stored), unknown)
      decreases events, 0
    {
      if events != [] {
        match events[0] {
          case Boundary(inside, outcome) =>
            var code := FfiBoundary(inside, outcome);
          case Set(code, message) =>
            SetLastError(code, message);
          case Clear =>
            ClearLastError();
          case Query =>
            var code, written := GetLastErrorMessage(null, 0, true);
        }
        AfterStep(events[0], events[1..], old(stored), unknown);
        assert events == [events[0]] + events[1..];
        Perform(events[1..]);
      }
    }

    /** The documented protocol: ask for the size, then read into a buffer of it. */
    method SizeThenRead() returns (code: int, bytes: seq<bv8>)
      ensures code == 0 && bytes == stored.message + [0]
    {
      var tooSmall, size := GetLastErrorMessage(null, 0, true);
      var buffer := new bv8[size.value](_ => 0);
      var written;
      code, written := GetLastErrorMessage(buffer, size.value, true);
      bytes := buffer[..];
    }
  }

  // ----- Whole runs -----

  lemma {:induction false} AfterAppend(a: seq<Event>, b: seq<Event>, stored: Stored, unknown: Message)
    ensures After(a + b, stored, unknown) == After(b, After(a, stored, unknown), unknown)
    decreases |a|
  {
    if a == [] {
      assert a + b == b;
    } else {
      assert (a + b)[1..] == a[1..] + b;
      AfterAppend(a[1..], b, AfterOne(a[0], stored, unknown), unknown);
    }
  }

  lemma {:induction false} QueriesChangeNothing(queries: seq<Event>, stored: Stored, unknown: Message)
    requires forall k | 0 <= k < |queries| :: queries[k].Query?
    ensures After(queries, stored, unknown) == stored
  {
    if queries != [] {
      QueriesChangeNothing(queries[1..], stored, unknown);
    }
  }

  /** Over any run the stored error is what the most recent boundary, set or clear left,
      whatever came before it, whatever a boundary's closure did before it ended and
      however often it was queried since. It reads as "no error" exactly after a clear, a
      closure that returned, and a failure or a set with code 0 and no message. */
  lemma OnlyTheLastCallCounts(before: seq<Event>, last: Event, queries: seq<Event>, stored: Stored, unknown: Message)
    requires !last.Query? && forall k | 0 <= k < |queries| :: queries[k].Query?
    ensures var end := After(before + [last] + queries, stored, unknown);
            && end == (match last
                       case Boundary(_, Returned(_)) => Stored(0, [])
                       case Boundary(_, Failed(code, message)) => Stored(code, message)
                       case Boundary(_, Panicked(Said(message))) => Stored(-99, message)
                       case Boundary(_, Panicked(Other)) => Stored(-99, unknown)
                       case Set(code, message) => Stored(code, message)
                       case Clear => Stored(0, []))
            && (end == Stored(0, []) <==>
                || last.Clear? || last == Set(0, [])
                || (last.Boundary? && (last.outcome.Returned? || last.outcome == Failed(0, []))))
  {
    AfterAppend(before + [last], queries, stored, unknown);
    AfterAppend(before, [last], stored, unknown);
    AfterStep(last, [], After(before, stored, unknown), unknown);
    assert [last] + [] == [last];
    QueriesChangeNothing(queries, AfterOne(last, stored, unknown), unknown);
  }

  /** A failure that reads as "no error": its caller is told 0, and nothing is stored. */
  lemma FailureThatLeavesNoError(stored: Stored, unknown: Message)
    ensures After([Boundary([], Failed(0, []))], stored, unknown) == Stored(0, [])
  {
    var none: seq<Event> := [];
    var failed := Boundary(none, Failed(0, []));
    OnlyTheLastCallCounts(none, failed, none, stored, unknown);
    assert none + [failed] + none == [failed];
  }
}
