/**
  The run logger that stands in for standard output during a run: every
  message goes both to the console and to the freshly truncated log file,
  until the logger is closed. Closing closes the file once; afterwards
  writes and flushes are dropped silently.

  The two streams are I/O, so the console and the file are ghost sequences
  of what was written to them, with counts of how much of each was flushed
  and how often the file was closed.
 */
module RunLog {

  /** Everything observable about a logger. */
  datatype Sinks = Sinks(
    console: seq<string>,
    log: seq<string>,
    consoleFlushed: nat,
    logFlushed: nat,
    closed: bool,
    logCloses: nat)

  /** Just after `Logger(log_file)`: the file is opened in "w" mode, so it starts empty. */
  const Opened := Sinks([], [], 0, 0, false, 0)

  /** `write(message)`: both sinks receive the message while the logger is open. */
  function AfterWrite(s: Sinks, message: string): Sinks {
    if s.closed then s else s.(console := s.console + [message], log := s.log + [message])
  }

  /** `flush()`: both sinks are flushed while the logger is open. */
  function AfterFlush(s: Sinks): Sinks {
    if s.closed then s else s.(consoleFlushed := |s.console|, logFlushed := |s.log|)
  }

  /** `close()`: the first call closes (and so flushes) the file; later calls do nothing. */
  function AfterClose(s: Sinks): Sinks {
    if s.closed then s else s.(logFlushed := |s.log|, closed := true, logCloses := s.logCloses + 1)
  }

  datatype Op = Write(message: string) | Flush | Close

  function Apply(s: Sinks, op: Op): Sinks {
    match op
    case Write(m) => AfterWrite(s, m)
    case Flush => AfterFlush(s)
    case Close => AfterClose(s)
  }

  /** The state after performing `ops` in order. */
  function Replay(s: Sinks, ops: seq<Op>): Sinks {
    if |ops| == 0 then s else Apply(Replay(s, ops[..|ops| - 1]), ops[|ops| - 1])
  }

  /** The messages of the writes that come before the first close. */
  function WrittenBeforeClose(ops: seq<Op>): seq<string> {
    if |ops| == 0 then []
    else
      var earlier := ops[..|ops| - 1];
      var last := ops[|ops| - 1];
      WrittenBeforeClose(earlier)
        + (if Close !in earlier && last.Write? then [last.message] else [])
  }

  /**
    The logger's invariant: console and file have received the same
    messages, nothing is flushed that was not written, the file has been
    closed exactly once if the logger is closed and never otherwise, and a
    closed file holds everything written to it.
   */
  predicate Consistent(s: Sinks) {
    && s.console == s.log
    && s.consoleFlushed <= |s.console|
    && s.logFlushed <= |s.log|
    && s.logCloses == (if s.closed then 1 else 0)
    && (s.closed ==> s.logFlushed == |s.log|)
  }

  /** Each operation keeps the invariant. */
  lemma ApplyConsistent(s: Sinks, op: Op)
    requires Consistent(s)
    ensures Consistent(Apply(s, op))
  {
  }

  /** Any sequence of operations keeps the invariant. */
  lemma {:induction false} ReplayConsistent(s: Sinks, ops: seq<Op>)
    requires Consistent(s)
    ensures Consistent(Replay(s, ops))
  {
    if |ops| > 0 {
      ReplayConsistent(s, ops[..|ops| - 1]);
      ApplyConsistent(Replay(s, ops[..|ops| - 1]), ops[|ops| - 1]);
    }
  }

  /**
    From a fresh logger, whatever is done: the console and the log file hold
    exactly the messages written before the first close, in order; the file
    is closed once if a close was called and never otherwise.
   */
  lemma {:induction false} ReplayFromOpened(ops: seq<Op>)
    ensures Replay(Opened, ops).console == WrittenBeforeClose(ops)
    ensures Replay(Opened, ops).log == WrittenBeforeClose(ops)
    ensures Replay(Opened, ops).closed <==> Close in ops
    ensures Replay(Opened, ops).logCloses == if Close in ops then 1 else 0
  {
    if |ops| > 0 {
      var earlier := ops[..|ops| - 1];
      ReplayFromOpened(earlier);
      ReplayConsistent(Opened, earlier);
      assert ops == earlier + [ops[|ops| - 1]];
    }
  }

  /** Once closed, nothing changes any more: no write, flush or close has an effect. */
  lemma {:induction false} ClosedIsFinal(s: Sinks, ops: seq<Op>)
    requires s.closed
    ensures Replay(s, ops) == s
  {
    if |ops| > 0 {
      ClosedIsFinal(s, ops[..|ops| - 1]);
    }
  }

  /**
    A logger whose sinks are ghost sequences; `isClosed` is the one piece of
    real state, as in the source.
   */
  class Logger {
    ghost var console: seq<string>
    ghost var log: seq<string>
    ghost var consoleFlushed: nat
    ghost var logFlushed: nat
    ghost var logCloses: nat
    var isClosed: bool

    ghost function State(): Sinks
      reads this
    {
      Sinks(console, log, consoleFlushed, logFlushed, isClosed, logCloses)
    }

    ghost predicate Valid()
      reads this
    {
      Consistent(State())
    }

    constructor ()
      ensures Valid() && State() == Opened
    {
      console, log := [], [];
      consoleFlushed, logFlushed, logCloses := 0, 0, 0;
      isClosed := false;
    }

    method Write(message: string)
      requires Valid()
      modifies this
      ensures Valid() && State() == AfterWrite(old(State()), message)
    {
      if !isClosed {
        console := console + [message];
        log := log + [message];
      }
    }

    method Flush()
      requires Valid()
      modifies this
      ensures Valid() && State() == AfterFlush(old(State()))
    {
      if !isClosed {
        consoleFlushed := |console|;
        logFlushed := |log|;
      }
    }

    method Close()
      requires Valid()
      modifies this
      ensures Valid() && State() == AfterClose(old(State()))
      ensures isClosed && logCloses == 1
    {
      if !isClosed {
        logFlushed := |log|;
        logCloses := logCloses + 1;
        isClosed := true;
      }
    }
  }
}
