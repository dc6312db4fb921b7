/** The terminal that runs `databricks sync`
    (packages/databricks-vscode/src/cli/SyncTasks.ts and DatabricksCliSyncParser.ts):
    the states it shows, from output that is handled under a reader-writer lock. */
module SyncTerminal {
  import opened Wrappers
  import RwLock

  datatype SyncState = InProgress | WatchingForChanges | Stopped | FilesInReposDisabled | FilesInWorkspaceDisabled | Error

  /** A call of the state callback. */
  datatype Call = Call(state: SyncState, reason: Option<string>)

  /** The calls that reached the outer callback, the latest last. */
  datatype Trace = Quiet | Then(before: Trace, call: Call)

  /** What the terminal takes its state to be; it starts out stopped. */
  function Shown(trace: Trace): SyncState {
    if trace.Quiet? then Stopped else trace.call.state
  }

  predicate IsDisabled(state: SyncState) {
    state.FilesInReposDisabled? || state.FilesInWorkspaceDisabled?
  }

  /** The guard of the wrapped callback. */
  predicate IsDropped(shown: SyncState, call: Call) {
    || (IsDisabled(shown) && (call.state.Error? || call.state.Stopped?))
    || (shown.Stopped? && call.state.Error? && call.reason.None?)
    || shown == call.state
  }

  function Receive(trace: Trace, call: Call): Trace {
    if IsDropped(Shown(trace), call) then trace else Then(trace, call)
  }

  function ReceiveIfAny(trace: Trace, call: Option<Call>): Trace {
    if call.Some? then Receive(trace, call.value) else trace
  }

  // -------------------------------------------------------------- the output

  /** A line of output, as the JSON reader and the three error patterns see it. */
  datatype Line =
    | Blank
    | StartEvent
    | CompleteEvent
    | OtherLine
    | WorkspaceDisabledLine
    | ReposDisabledLine
    | ErrorLine(reason: string)

  datatype Chunk = Stdout(lines: seq<Line>) | Stderr(lines: seq<Line>)

  function ErrorCall(line: Line): Option<Call> {
    match line
    case WorkspaceDisabledLine => Some(Call(FilesInWorkspaceDisabled, None))
    case ReposDisabledLine => Some(Call(FilesInReposDisabled, None))
    case ErrorLine(reason) => Some(Call(Error, Some(reason)))
    case _ => None
  }

  function FirstError(lines: seq<Line>): Option<Call> {
    if lines == [] then None
    else if ErrorCall(lines[0]).Some? then ErrorCall(lines[0])
    else FirstError(lines[1..])
  }

  function AfterLine(parser: SyncState, line: Line): SyncState {
    match line
    case StartEvent => InProgress
    case CompleteEvent => WatchingForChanges
    case _ => parser
  }

  /** The parser's state after the lines up to the first error. */
  function AfterLines(parser: SyncState, lines: seq<Line>): SyncState
    decreases |lines|
  {
    if lines == [] || ErrorCall(lines[0]).Some? then parser else AfterLines(AfterLine(parser, lines[0]), lines[1..])
  }

  function ParserAfter(parser: SyncState, chunk: Chunk): SyncState {
    if chunk.Stdout? then AfterLines(parser, chunk.lines) else parser
  }

  /** Output reports its first error; without one, stdout reports the parser's
      state and stderr nothing. */
  function Report(parser: SyncState, chunk: Chunk): Option<Call> {
    var error := FirstError(chunk.lines);
    if error.Some? then error
    else if chunk.Stdout? then Some(Call(AfterLines(parser, chunk.lines), None))
    else None
  }

  class CustomSyncTerminal {
    var state: SyncState
    var parserState: SyncState
    /** What the outer callback was called with. */
    ghost var emitted: Trace

    ghost predicate Valid()
      reads this
    {
      state == Shown(emitted)
    }

    constructor ()
      ensures Valid() && emitted == Quiet && parserState == Stopped
    {
      state, parserState, emitted := Stopped, Stopped, Quiet;
    }

    method SyncStateCallback(next: SyncState, reason: Option<string>)
      requires Valid()
      modifies this
      ensures Valid() && parserState == old(parserState)
      ensures emitted == Receive(old(emitted), Call(next, reason))
    {
      var disabled := state == FilesInReposDisabled || state == FilesInWorkspaceDisabled;
      if (disabled && (next == Error || next == Stopped)) ||
         (state == Stopped && next == Error && reason == None) ||
         state == next
      {
        return;
      }
      state := next;
      emitted := Then(emitted, Call(next, reason));
    }

    method Open()
      requires Valid()
      modifies this
      ensures Valid() && parserState == old(parserState)
      ensures emitted == Receive(old(emitted), Call(InProgress, None))
    {
      SyncStateCallback(InProgress, None);
    }

    method Close()
      requires Valid()
      modifies this
      ensures Valid() && parserState == old(parserState)
      ensures emitted == Receive(old(emitted), Call(Stopped, None))
    {
      SyncStateCallback(Stopped, None);
    }

    /** The handler of the process's "close" event, once it has the lock. */
    method OnExit(code: int)
      requires Valid()
      modifies this
      ensures Valid() && parserState == old(parserState)
      ensures emitted == if code == 0 then old(emitted) else Receive(old(emitted), Call(Error, None))
    {
      if code != 0 {
        SyncStateCallback(Error, None);
      }
    }

    method MatchForErrors(line: Line) returns (matched: bool)
      requires Valid()
      modifies this
      ensures Valid() && parserState == old(parserState)
      ensures matched <==> ErrorCall(line).Some?
      ensures emitted == ReceiveIfAny(old(emitted), ErrorCall(line))
    {
      match line
      case WorkspaceDisabledLine =>
        SyncStateCallback(FilesInWorkspaceDisabled, None);
        return true;
      case ReposDisabledLine =>
        SyncStateCallback(FilesInReposDisabled, None);
        return true;
      case ErrorLine(reason) =>
        SyncStateCallback(Error, Some(reason));
        return true;
      case _ =>
        return false;
    }

    method ProcessStderr(lines: seq<Line>)
      requires Valid()
      modifies this
      ensures Valid() && parserState == ParserAfter(old(parserState), Stderr(lines))
      ensures emitted == ReceiveIfAny(old(emitted), Report(old(parserState), Stderr(lines)))
    {
      for i := 0 to |lines|
        invariant Valid() && parserState == old(parserState) && emitted == old(emitted)
        invariant FirstError(lines) == FirstError(lines[i..])
      {
        assert lines[i..][1..] == lines[i + 1..];
        if lines[i] != Blank {
          var matched := MatchForErrors(lines[i]);
          if matched {
            return;
          }
        }
      }
    }

    method ProcessStdout(lines: seq<Line>)
      requires Valid()
      modifies this
      ensures Valid() && parserState == ParserAfter(old(parserState), Stdout(lines))
      ensures emitted == ReceiveIfAny(old(emitted), Report(old(parserState), Stdout(lines)))
    {
      for i := 0 to |lines|
        invariant Valid() && emitted == old(emitted)
        invariant FirstError(lines) == FirstError(lines[i..])
        invariant AfterLines(old(parserState), lines) == AfterLines(parserState, lines[i..])
      {
        assert lines[i..][1..] == lines[i + 1..];
        if lines[i] != Blank {
          if lines[i] == StartEvent {
            parserState := InProgress;
          } else if lines[i] == CompleteEvent {
            parserState := WatchingForChanges;
          }
          var matched := MatchForErrors(lines[i]);
          if matched {
            return;
          }
        }
      }
      SyncStateCallback(parserState, None);
    }
  }

  // ------------------------------------------------------------ all schedules

  /** The terminal and its lock; the i-th reader of the lock handles the i-th chunk,
      the only writer the exit. */
  datatype State = State(locks: RwLock.State, chunks: seq<Chunk>, parser: SyncState, trace: Trace, code: int)

  datatype Event =
    | Data(chunk: Chunk)
    | Exit(code: int)
    | Handler(step: RwLock.Step)  // a handler runs on to its next await
    | Kill                        // the user closes the terminal

  /** The terminal has been opened and the process started. */
  const OPENED := State(RwLock.START, [], Stopped, Then(Quiet, Call(InProgress, None)), 0)

  /** A process closes after its streams have ended, so no output comes after the exit. */
  predicate Allowed(s: State, e: Event) {
    match e
    case Data(_) => s.locks.writers == []
    case Exit(_) => s.locks.writers == []
    case Handler(step) => !step.Arrive? && !step.ArriveWriter? && RwLock.Allowed(s.locks, step) &&
                          (step.Work? ==> step.i < |s.chunks|)
    case Kill => true
  }

  function Step(s: State, e: Event): State
    requires Allowed(s, e)
  {
    match e
    case Data(chunk) => s.(locks := RwLock.Next(s.locks, RwLock.Arrive), chunks := s.chunks + [chunk])
    case Exit(code) => s.(locks := RwLock.Next(s.locks, RwLock.ArriveWriter), code := code)
    case Kill => s.(trace := Receive(s.trace, Call(Stopped, None)))
    case Handler(step) =>
      var next := s.(locks := RwLock.Next(s.locks, step));
      if step.Work? then
        next.(parser := ParserAfter(s.parser, s.chunks[step.i]),
              trace := ReceiveIfAny(s.trace, Report(s.parser, s.chunks[step.i])))
      else if step.WorkWriter? && s.code != 0 then next.(trace := Receive(s.trace, Call(Error, None)))
      else next
  }

  ghost predicate Happens(s: State, events: seq<Event>)
    decreases |events|
  {
    events == [] || (Allowed(s, events[0]) && Happens(Step(s, events[0]), events[1..]))
  }

  ghost function Run(s: State, events: seq<Event>): State
    requires Happens(s, events)
    decreases |events|
  {
    if events == [] then s else Run(Step(s, events[0]), events[1..])
  }

  /** The methods of the class make the changes of the steps. */
  method Deliver(t: CustomSyncTerminal, s: State, e: Event)
    requires Allowed(s, e) && t.Valid() && t.emitted == s.trace && t.parserState == s.parser
    modifies t
    ensures t.Valid() && t.emitted == Step(s, e).trace && t.parserState == Step(s, e).parser
  {
    match e
    case Kill =>
      t.Close();
    case Handler(Work(i)) =>
      if s.chunks[i].Stdout? {
        t.ProcessStdout(s.chunks[i].lines);
      } else {
        t.ProcessStderr(s.chunks[i].lines);
      }
    case Handler(WorkWriter(_)) =>
      t.OnExit(s.code);
    case _ =>
  }

  // ------------------------------------------------------- what is never shown

  /** What the source's comments say of two states shown one after the other. */
  predicate MayFollow(earlier: SyncState, later: Call) {
    && earlier != later.state
    && (IsDisabled(earlier) ==> later.state != Error && later.state != Stopped)
    && (earlier == Stopped && later.state == Error ==> later.reason.Some?)
  }

  predicate IsLawful(trace: Trace) {
    trace.Then? ==> IsLawful(trace.before) && MayFollow(Shown(trace.before), trace.call)
  }

  /** The same, over the list of states with the initial one. */
  function States(trace: Trace): seq<Call> {
    if trace.Quiet? then [Call(Stopped, None)] else States(trace.before) + [trace.call]
  }

  lemma {:induction false} LawfulNeighbours(trace: Trace)
    ensures |States(trace)| > 0 && States(trace)[|States(trace)| - 1].state == Shown(trace)
    ensures IsLawful(trace) <==>
            forall i | 0 < i < |States(trace)| :: MayFollow(States(trace)[i - 1].state, States(trace)[i])
  {
    if trace.Then? {
      LawfulNeighbours(trace.before);
      var front, all := States(trace.before), States(trace);
      assert forall i | 0 <= i < |front| :: all[i] == front[i];
      assert all[|front|] == trace.call;
    }
  }

  /** In every run no two neighbours are equal, a files-disabled state is followed
      by neither an error nor a stop, and a stop not by an error without a reason. */
  lemma {:induction false} RunIsLawful(s: State, events: seq<Event>)
    requires IsLawful(s.trace) && Happens(s, events)
    ensures IsLawful(Run(s, events).trace)
    decreases |events|
  {
    if events != [] {
      RunIsLawful(Step(s, events[0]), events[1..]);
    }
  }

  // -------------------------------------------------------- what output means

  predicate IsErrorLine(line: Line) {
    line == WorkspaceDisabledLine || line == ReposDisabledLine || line.ErrorLine?
  }

  predicate IsEventLine(line: Line) {
    line == StartEvent || line == CompleteEvent
  }

  lemma {:induction false} FirstErrorAt(lines: seq<Line>, k: nat)
    requires k < |lines| && IsErrorLine(lines[k]) && forall i | 0 <= i < k :: !IsErrorLine(lines[i])
    ensures FirstError(lines) == ErrorCall(lines[k])
    decreases k
  {
    if k > 0 {
      FirstErrorAt(lines[1..], k - 1);
    }
  }

  /** Only the first error line of a chunk is reported, whichever stream it is on. */
  lemma FirstErrorIsReported(parser: SyncState, chunk: Chunk, k: nat)
    requires k < |chunk.lines| && IsErrorLine(chunk.lines[k])
    requires forall i | 0 <= i < k :: !IsErrorLine(chunk.lines[i])
    ensures chunk.lines[k] == WorkspaceDisabledLine ==> Report(parser, chunk) == Some(Call(FilesInWorkspaceDisabled, None))
    ensures chunk.lines[k] == ReposDisabledLine ==> Report(parser, chunk) == Some(Call(FilesInReposDisabled, None))
    ensures chunk.lines[k].ErrorLine? ==> Report(parser, chunk) == Some(Call(Error, Some(chunk.lines[k].reason)))
  {
    FirstErrorAt(chunk.lines, k);
  }

  lemma {:induction false} NoErrorNoCall(lines: seq<Line>)
    requires forall i | 0 <= i < |lines| :: !IsErrorLine(lines[i])
    ensures FirstError(lines) == None
  {
    if lines != [] {
      NoErrorNoCall(lines[1..]);
    }
  }

  /** Without an error line, stderr reports nothing, and stdout the state after its
      last event: in progress after a start, watching after a completion; without an
      event, the state it had. */
  lemma LastEventIsReported(parser: SyncState, lines: seq<Line>, k: nat)
    requires k <= |lines| && forall i | 0 <= i < |lines| :: !IsErrorLine(lines[i])
    requires (k > 0 ==> IsEventLine(lines[k - 1])) && forall i | k <= i < |lines| :: !IsEventLine(lines[i])
    ensures Report(parser, Stderr(lines)) == None
    ensures Report(parser, Stdout(lines)) ==
            Some(Call(if k == 0 then parser else if lines[k - 1] == StartEvent then InProgress else WatchingForChanges, None))
  {
    NoErrorNoCall(lines);
    StateAfterEvents(parser, lines, k);
  }

  /** The parser's own state follows the events before the first error line. */
  lemma {:induction false} StateAfterEvents(parser: SyncState, lines: seq<Line>, k: nat)
    requires k <= |lines| && forall i | 0 <= i < k :: !IsErrorLine(lines[i])
    requires (k > 0 ==> IsEventLine(lines[k - 1]))
    requires forall i | k <= i < |lines| ::
               !IsEventLine(lines[i]) || exists j | k <= j < i :: IsErrorLine(lines[j])
    ensures ParserAfter(parser, Stdout(lines)) ==
            if k == 0 then parser else if lines[k - 1] == StartEvent then InProgress else WatchingForChanges
    ensures ParserAfter(parser, Stderr(lines)) == parser
    decreases |lines|
  {
    if lines != [] && !IsErrorLine(lines[0]) {
      var rest, next := lines[1..], AfterLine(parser, lines[0]);
      var j := if k == 0 then 0 else k - 1;
      assert forall i | 0 <= i < |rest| :: rest[i] == lines[i + 1];
      forall i | j <= i < |rest|
        ensures !IsEventLine(rest[i]) || exists m | j <= m < i :: IsErrorLine(rest[m])
      {
        if IsEventLine(rest[i]) {
          assert IsEventLine(lines[i + 1]);
          var m :| k <= m < i + 1 && IsErrorLine(lines[m]);
          assert IsErrorLine(rest[m - 1]);
        }
      }
      StateAfterEvents(next, rest, j);
    }
  }

  /** A call is shown, unless files are disabled and it is an error or a stop, or
      the terminal has stopped and it is an error without a reason. */
  lemma CallIsShown(trace: Trace, call: Call)
    ensures var shown := Shown(trace);
            var hidden :=
              || (shown in {FilesInReposDisabled, FilesInWorkspaceDisabled} && call.state in {Error, Stopped})
              || (shown == Stopped && call == Call(Error, None));
            && Shown(Receive(trace, call)) == (if hidden then shown else call.state)
            && (Receive(trace, call) == trace || Receive(trace, call) == Then(trace, call))
  {}

  // ------------------------------------------------------ what a run comes down to

  /** What the terminal handles, in the order in which it does. */
  datatype Input = Printed(chunk: Chunk) | Killed | Exited(code: int)

  function Handled(s: State, e: Event): seq<Input>
    requires Allowed(s, e)
  {
    match e
    case Kill => [Killed]
    case Handler(Work(i)) => [Printed(s.chunks[i])]
    case Handler(WorkWriter(_)) => [Exited(s.code)]
    case _ => []
  }

  ghost function Inputs(s: State, events: seq<Event>): seq<Input>
    requires Happens(s, events)
    decreases |events|
  {
    if events == [] then [] else Handled(s, events[0]) + Inputs(Step(s, events[0]), events[1..])
  }

  function ParserAfterInput(parser: SyncState, input: Input): SyncState {
    if input.Printed? then ParserAfter(parser, input.chunk) else parser
  }

  function ParserAt(parser: SyncState, inputs: seq<Input>): SyncState {
    if inputs == [] then parser
    else ParserAfterInput(ParserAt(parser, inputs[..|inputs| - 1]), inputs[|inputs| - 1])
  }

  /** The call that an input makes, if any. */
  function CallOf(parser: SyncState, input: Input): seq<Call> {
    match input
    case Printed(chunk) => if Report(parser, chunk).Some? then [Report(parser, chunk).value] else []
    case Killed => [Call(Stopped, None)]
    case Exited(code) => if code != 0 then [Call(Error, None)] else []
  }

  /** The calls the inputs make, from their order alone. */
  function CallsOf(parser: SyncState, inputs: seq<Input>): seq<Call> {
    if inputs == [] then []
    else
      var front := inputs[..|inputs| - 1];
      CallsOf(parser, front) + CallOf(ParserAt(parser, front), inputs[|inputs| - 1])
  }

  function Replay(trace: Trace, calls: seq<Call>): Trace {
    if calls == [] then trace else Receive(Replay(trace, calls[..|calls| - 1]), calls[|calls| - 1])
  }

  /** `s'` shows what `s` and the inputs handled since then come down to. */
  predicate Replays(s: State, s': State, inputs: seq<Input>) {
    s'.parser == ParserAt(s.parser, inputs) && s'.trace == Replay(s.trace, CallsOf(s.parser, inputs))
  }

  lemma {:induction false} CallsConcat(parser: SyncState, a: seq<Input>, b: seq<Input>)
    ensures ParserAt(parser, a + b) == ParserAt(ParserAt(parser, a), b)
    ensures CallsOf(parser, a + b) == CallsOf(parser, a) + CallsOf(ParserAt(parser, a), b)
    decreases |b|
  {
    if b == [] {
      assert a + b == a;
    } else {
      var last := |b| - 1;
      assert (a + b)[..|a + b| - 1] == a + b[..last];
      CallsConcat(parser, a, b[..last]);
      var between := ParserAt(parser, a);
      Concatenation(CallsOf(parser, a), CallsOf(between, b[..last]), CallOf(ParserAt(between, b[..last]), b[last]));
    }
  }

  lemma {:induction false} ReplayConcat(trace: Trace, a: seq<Call>, b: seq<Call>)
    ensures Replay(trace, a + b) == Replay(Replay(trace, a), b)
    decreases |b|
  {
    if b == [] {
      assert a + b == a;
    } else {
      assert (a + b)[..|a + b| - 1] == a + b[..|b| - 1];
      ReplayConcat(trace, a, b[..|b| - 1]);
    }
  }

  lemma StepReplays(s: State, e: Event)
    requires Allowed(s, e)
    ensures Step(s, e).parser == ParserAt(s.parser, Handled(s, e))
    ensures Step(s, e).trace == Replay(s.trace, CallsOf(s.parser, Handled(s, e)))
  {
    var inputs := Handled(s, e);
    if inputs != [] {
      assert inputs[..0] == [];
      assert [] + CallOf(s.parser, inputs[0]) == CallOf(s.parser, inputs[0]);
      var calls := CallOf(s.parser, inputs[0]);
      if calls != [] {
        assert calls[..0] == [];
      }
    }
  }

  /** What a run shows follows from the order in which its inputs are handled. */
  lemma {:induction false} RunReplays(s: State, events: seq<Event>)
    requires Happens(s, events)
    ensures Replays(s, Run(s, events), Inputs(s, events))
    decreases |events|
  {
    if events != [] {
      var e := events[0];
      StepReplays(s, e);
      RunReplays(Step(s, e), events[1..]);
      CallsConcat(s.parser, Handled(s, e), Inputs(Step(s, e), events[1..]));
      ReplayConcat(s.trace, CallsOf(s.parser, Handled(s, e)),
                   CallsOf(ParserAt(s.parser, Handled(s, e)), Inputs(Step(s, e), events[1..])));
    }
  }

  // ---------------------------------------------------------- disabled files

  predicate IsStatus(state: SyncState) {
    state.InProgress? || state.WatchingForChanges?
  }

  predicate NoStatus(calls: seq<Call>) {
    forall i | 0 <= i < |calls| :: !IsStatus(calls[i].state)
  }

  predicate NoStatusAfter(calls: seq<Call>, i: nat) {
    forall j | i < j < |calls| :: !IsStatus(calls[j].state)
  }

  /** Some call says that files are disabled, and no later one reports a status. */
  predicate LastWordIsDisabled(calls: seq<Call>) {
    exists i | 0 <= i < |calls| :: IsDisabled(calls[i].state) && NoStatusAfter(calls, i)
  }

  lemma LastWordByParts(calls: seq<Call>)
    requires calls != []
    ensures var front, last := calls[..|calls| - 1], calls[|calls| - 1].state;
            && (NoStatus(calls) <==> NoStatus(front) && !IsStatus(last))
            && (LastWordIsDisabled(calls) <==> IsDisabled(last) || (LastWordIsDisabled(front) && !IsStatus(last)))
  {
    var n := |calls| - 1;
    var front := calls[..n];
    assert calls == front + [calls[n]];
    forall i: nat | i < n
      ensures NoStatusAfter(calls, i) <==> NoStatusAfter(front, i) && !IsStatus(calls[n].state)
    {
      assert forall j | i < j < n :: front[j] == calls[j];
    }
    if LastWordIsDisabled(front) && !IsStatus(calls[n].state) {
      var i :| 0 <= i < n && IsDisabled(front[i].state) && NoStatusAfter(front, i);
      assert IsDisabled(calls[i].state) && NoStatusAfter(calls, i);
    }
    assert NoStatusAfter(calls, n);
    if LastWordIsDisabled(calls) && !IsDisabled(calls[n].state) {
      var i :| 0 <= i <= n && IsDisabled(calls[i].state) && NoStatusAfter(calls, i);
      assert IsDisabled(front[i].state) && NoStatusAfter(front, i);
    }
  }

  lemma {:induction false} DisabledIffLastWord(trace: Trace, calls: seq<Call>)
    ensures IsDisabled(Shown(Replay(trace, calls))) <==>
            LastWordIsDisabled(calls) || (IsDisabled(Shown(trace)) && NoStatus(calls))
  {
    if calls != [] {
      LastWordByParts(calls);
      DisabledIffLastWord(trace, calls[..|calls| - 1]);
    }
  }

  /** From every state and in every run, whatever the exit code, the order of the
      handlers and the closing of the terminal: it ends up showing files disabled
      exactly when the last word was that they are, or when they were shown as
      disabled and no status has been reported since. */
  lemma RunEndsDisabledIff(s: State, events: seq<Event>)
    requires Happens(s, events)
    ensures var calls := CallsOf(s.parser, Inputs(s, events));
            IsDisabled(Shown(Run(s, events).trace)) <==>
            LastWordIsDisabled(calls) || (IsDisabled(Shown(s.trace)) && NoStatus(calls))
  {
    RunReplays(s, events);
    DisabledIffLastWord(s.trace, CallsOf(s.parser, Inputs(s, events)));
  }

  // --------------------------------------------------------- the drained output

  predicate IsHandled(at: RwLock.ReaderAt) {
    at.Leaving? || at.Left?
  }

  /** The readers of the lock are the chunks, and its writer, if any, is the exit. */
  predicate Paired(s: State) {
    && |s.chunks| == |s.locks.readers| && |s.locks.writers| == |s.locks.since| <= 1
    && (s.locks.since != [] ==> s.locks.since[0] == |s.locks.readers|)
  }

  predicate Follows(s: State) {
    RwLock.Valid(s.locks) && Paired(s)
  }

  predicate ExitHandled(s: State) {
    |s.locks.writers| == 1 && s.locks.writers[0].Closed?
  }

  lemma StepKeepsPaired(s: State, e: Event)
    requires Allowed(s, e) && Paired(s)
    ensures Paired(Step(s, e))
  {}

  lemma StepKeepsFollows(s: State, e: Event)
    requires Allowed(s, e) && Follows(s)
    ensures Follows(Step(s, e))
  {
    StepKeepsPaired(s, e);
    match e
    case Data(_) => RwLock.StepKeepsValid(s.locks, RwLock.Arrive);
    case Exit(_) => RwLock.StepKeepsValid(s.locks, RwLock.ArriveWriter);
    case Handler(step) => RwLock.StepKeepsValid(s.locks, step);
    case Kill =>
  }

  lemma {:induction false} RunKeepsFollows(s: State, events: seq<Event>)
    requires Follows(s) && Happens(s, events)
    ensures Follows(Run(s, events))
    decreases |events|
  {
    if events != [] {
      StepKeepsFollows(s, events[0]);
      RunKeepsFollows(Step(s, events[0]), events[1..]);
    }
  }

  lemma OpenedFollows()
    ensures Follows(OPENED)
  {
    RwLock.StartIsValid();
  }

  /** What output has come, chunk by chunk. */
  function Output(events: seq<Event>): multiset<Chunk> {
    if events == [] then multiset{} else Came(events[0]) + Output(events[1..])
  }

  function Came(e: Event): multiset<Chunk> {
    if e.Data? then multiset{e.chunk} else multiset{}
  }

  /** What output has been handled. */
  function PrintedIn(inputs: seq<Input>): multiset<Chunk> {
    if inputs == [] then multiset{}
    else PrintedIn(inputs[..|inputs| - 1]) + PrintedBy(inputs[|inputs| - 1])
  }

  function PrintedBy(input: Input): multiset<Chunk> {
    if input.Printed? then multiset{input.chunk} else multiset{}
  }

  /** The chunks whose handlers have not got to them. */
  function Unread(readers: seq<RwLock.ReaderAt>, chunks: seq<Chunk>): multiset<Chunk>
    requires |readers| == |chunks|
  {
    if readers == [] then multiset{}
    else
      var n := |readers| - 1;
      Unread(readers[..n], chunks[..n]) + if IsHandled(readers[n]) then multiset{} else multiset{chunks[n]}
  }

  lemma {:induction false} UnreadStays(readers: seq<RwLock.ReaderAt>, chunks: seq<Chunk>, i: nat, at: RwLock.ReaderAt)
    requires i < |readers| == |chunks| && (IsHandled(at) <==> IsHandled(readers[i]))
    ensures Unread(readers[i := at], chunks) == Unread(readers, chunks)
  {
    var n := |readers| - 1;
    if i < n {
      UnreadStays(readers[..n], chunks[..n], i, at);
      assert readers[i := at][..n] == readers[..n][i := at];
    } else {
      assert readers[i := at][..n] == readers[..n];
    }
  }

  lemma UnionSwap(a: multiset<Chunk>, b: multiset<Chunk>, c: multiset<Chunk>)
    ensures a + b + c == a + c + b
  {}

  lemma {:induction false} UnreadShrinks(readers: seq<RwLock.ReaderAt>, chunks: seq<Chunk>, i: nat, at: RwLock.ReaderAt)
    requires i < |readers| == |chunks| && IsHandled(at) && !IsHandled(readers[i])
    ensures Unread(readers, chunks) == Unread(readers[i := at], chunks) + multiset{chunks[i]}
  {
    var n := |readers| - 1;
    if i < n {
      UnreadShrinks(readers[..n], chunks[..n], i, at);
      assert readers[i := at][..n] == readers[..n][i := at];
      UnionSwap(Unread(readers[..n][i := at], chunks[..n]), multiset{chunks[i]},
                if IsHandled(readers[n]) then multiset{} else multiset{chunks[n]});
    } else {
      assert readers[i := at][..n] == readers[..n];
    }
  }

  lemma {:induction false} NoneUnread(readers: seq<RwLock.ReaderAt>, chunks: seq<Chunk>)
    requires |readers| == |chunks| && forall i | 0 <= i < |readers| :: readers[i].Left?
    ensures Unread(readers, chunks) == multiset{}
  {
    if readers != [] {
      NoneUnread(readers[..|readers| - 1], chunks[..|readers| - 1]);
    }
  }

  function Left(s: State): multiset<Chunk>
    requires Paired(s)
  {
    Unread(s.locks.readers, s.chunks)
  }

  lemma DataIsUnread(s: State, chunk: Chunk)
    requires Allowed(s, Data(chunk)) && Paired(s)
    ensures Paired(Step(s, Data(chunk))) && Left(Step(s, Data(chunk))) == Left(s) + multiset{chunk}
  {
    var after := Step(s, Data(chunk));
    assert after.locks.readers[..|s.chunks|] == s.locks.readers && after.chunks[..|s.chunks|] == s.chunks;
  }

  lemma WorkIsRead(s: State, i: nat)
    requires Allowed(s, Handler(RwLock.Work(i))) && Paired(s)
    ensures Paired(Step(s, Handler(RwLock.Work(i))))
    ensures Left(s) == Left(Step(s, Handler(RwLock.Work(i)))) + multiset{s.chunks[i]}
  {
    UnreadShrinks(s.locks.readers, s.chunks, i, RwLock.Leaving);
  }

  lemma OthersStayUnread(s: State, e: Event)
    requires Allowed(s, e) && Paired(s) && !e.Data? && !(e.Handler? && e.step.Work?)
    ensures Paired(Step(s, e)) && Left(Step(s, e)) == Left(s)
  {
    match e
    case Handler(Enter(i)) =>
      UnreadStays(s.locks.readers, s.chunks, i, if s.locks.count == 0 then RwLock.Locking else RwLock.Inside);
    case Handler(Acquire(i)) =>
      UnreadStays(s.locks.readers, s.chunks, i, RwLock.Inside);
    case Handler(Leave(i)) =>
      UnreadStays(s.locks.readers, s.chunks, i, RwLock.Left);
    case _ =>
  }

  lemma StepReads(s: State, e: Event)
    requires Allowed(s, e) && Paired(s)
    ensures Paired(Step(s, e)) && Left(Step(s, e)) + PrintedIn(Handled(s, e)) == Left(s) + Came(e)
  {
    PrintedInOne(Handled(s, e));
    match e
    case Data(chunk) => DataIsUnread(s, chunk);
    case Handler(Work(i)) => WorkIsRead(s, i);
    case _ => OthersStayUnread(s, e);
  }

  lemma PrintedInOne(inputs: seq<Input>)
    requires |inputs| <= 1
    ensures PrintedIn(inputs) == if inputs == [] then multiset{} else PrintedBy(inputs[0])
  {
    if inputs != [] {
      assert inputs[..0] == [];
    }
  }

  lemma {:induction false} PrintedConcat(a: seq<Input>, b: seq<Input>)
    ensures PrintedIn(a + b) == PrintedIn(a) + PrintedIn(b)
    decreases |b|
  {
    if b == [] {
      assert a + b == a;
    } else {
      assert (a + b)[..|a + b| - 1] == a + b[..|b| - 1];
      PrintedConcat(a, b[..|b| - 1]);
    }
  }

  lemma UnionChain(
      a: multiset<Chunk>, b: multiset<Chunk>, c: multiset<Chunk>,
      w: multiset<Chunk>, p: multiset<Chunk>, x: multiset<Chunk>, o: multiset<Chunk>)
    requires a + p == b + o && b + w == c + x
    ensures a + (w + p) == c + (x + o)
  {
    forall k
      ensures (a + (w + p))[k] == (c + (x + o))[k]
    {
      assert (a + p)[k] == (b + o)[k] && (b + w)[k] == (c + x)[k];
    }
  }

  lemma {:induction false} RunReads(s: State, events: seq<Event>)
    requires Happens(s, events) && Paired(s)
    ensures Paired(Run(s, events))
    ensures Left(Run(s, events)) + PrintedIn(Inputs(s, events)) == Left(s) + Output(events)
    decreases |events|
  {
    if events != [] {
      var e, rest := events[0], events[1..];
      StepReads(s, e);
      RunReads(Step(s, e), rest);
      PrintedConcat(Handled(s, e), Inputs(Step(s, e), rest));
      UnionChain(Left(Run(Step(s, e), rest)), Left(Step(s, e)), Left(s),
                 PrintedIn(Handled(s, e)), PrintedIn(Inputs(Step(s, e), rest)), Came(e), Output(rest));
    }
  }

  lemma ExitFindsAllRead(s: State)
    requires Follows(s) && (Allowed(s, Handler(RwLock.WorkWriter(0))) || ExitHandled(s))
    ensures Left(s) == multiset{}
  {
    if Allowed(s, Handler(RwLock.WorkWriter(0))) {
      RwLock.WriterExcludesReaders(s.locks, 0);
    }
    NoneUnread(s.locks.readers, s.chunks);
  }

  lemma UnionOfNothing(a: multiset<Chunk>, p: multiset<Chunk>, b: multiset<Chunk>, o: multiset<Chunk>)
    requires a + p == b + o && a == multiset{} && b == multiset{}
    ensures p == o
  {
    assert a + p == p && b + o == o;
  }

  lemma AllReadAtExit(s: State, events: seq<Event>)
    requires Follows(s) && s.chunks == [] && Happens(s, events)
    requires Allowed(Run(s, events), Handler(RwLock.WorkWriter(0))) || ExitHandled(Run(s, events))
    ensures PrintedIn(Inputs(s, events)) == Output(events)
  {
    RunKeepsFollows(s, events);
    RunReads(s, events);
    ExitFindsAllRead(Run(s, events));
    UnionOfNothing(Left(Run(s, events)), PrintedIn(Inputs(s, events)), Left(s), Output(events));
  }

  /** In every run, when the handler of the exit may run, and ever after: each chunk
      of output has been handled, exactly once. */
  lemma ExitComesLast(events: seq<Event>)
    requires Happens(OPENED, events)
    ensures Allowed(Run(OPENED, events), Handler(RwLock.WorkWriter(0))) || ExitHandled(Run(OPENED, events)) ==>
              PrintedIn(Inputs(OPENED, events)) == Output(events)
  {
    OpenedFollows();
    if Allowed(Run(OPENED, events), Handler(RwLock.WorkWriter(0))) || ExitHandled(Run(OPENED, events)) {
      AllReadAtExit(OPENED, events);
    }
  }

  /** When the exit has been handled, the terminal shows files disabled exactly when
      that was the last word of its output, every chunk of which counts, whatever
      the exit code. */
  lemma DisabledFilesAreShown(events: seq<Event>)
    requires Happens(OPENED, events) && ExitHandled(Run(OPENED, events))
    ensures IsDisabled(Shown(Run(OPENED, events).trace)) <==>
            LastWordIsDisabled(CallsOf(Stopped, Inputs(OPENED, events)))
    ensures PrintedIn(Inputs(OPENED, events)) == Output(events)
  {
    RunEndsDisabledIff(OPENED, events);
    ExitComesLast(events);
  }

  /** The chunk reports no status, in whatever state the parser is. */
  predicate ReportsNoStatus(chunk: Chunk) {
    chunk.Stdout? ==> FirstError(chunk.lines).Some?
  }

  predicate ReportsDisabled(chunk: Chunk) {
    FirstError(chunk.lines).Some? && IsDisabled(FirstError(chunk.lines).value.state)
  }

  lemma {:induction false} FirstErrorIsError(lines: seq<Line>)
    ensures FirstError(lines).Some? ==>
              IsDisabled(FirstError(lines).value.state) ||
              (FirstError(lines).value.state == Error && FirstError(lines).value.reason.Some?)
  {
    if lines != [] {
      FirstErrorIsError(lines[1..]);
    }
  }

  lemma QuietCall(parser: SyncState, input: Input)
    requires input.Printed? ==> ReportsNoStatus(input.chunk)
    ensures |CallOf(parser, input)| <= 1 && NoStatus(CallOf(parser, input))
    ensures input.Printed? && ReportsDisabled(input.chunk) ==> LastWordIsDisabled(CallOf(parser, input))
  {
    if input.Printed? {
      FirstErrorIsError(input.chunk.lines);
      if ReportsDisabled(input.chunk) {
        assert NoStatusAfter(CallOf(parser, input), 0);
      }
    }
  }

  lemma QuietAppend(calls: seq<Call>, more: seq<Call>)
    requires |more| <= 1 && NoStatus(more)
    ensures NoStatus(calls) ==> NoStatus(calls + more)
    ensures LastWordIsDisabled(calls) || LastWordIsDisabled(more) ==> LastWordIsDisabled(calls + more)
  {
    if more == [] {
      assert calls + more == calls;
    } else {
      assert (calls + more)[..|calls|] == calls;
      LastWordByParts(calls + more);
    }
  }

  lemma {:induction false} QuietOutput(parser: SyncState, inputs: seq<Input>)
    requires forall chunk | chunk in PrintedIn(inputs) :: ReportsNoStatus(chunk)
    ensures NoStatus(CallsOf(parser, inputs))
    ensures forall chunk | chunk in PrintedIn(inputs) && ReportsDisabled(chunk) ::
              LastWordIsDisabled(CallsOf(parser, inputs))
  {
    if inputs != [] {
      var front, last := inputs[..|inputs| - 1], inputs[|inputs| - 1];
      assert forall chunk | chunk in PrintedIn(front) || chunk in PrintedBy(last) :: chunk in PrintedIn(inputs);
      QuietOutput(parser, front);
      assert last.Printed? ==> last.chunk in PrintedBy(last);
      QuietCall(ParserAt(parser, front), last);
      QuietAppend(CallsOf(parser, front), CallOf(ParserAt(parser, front), last));
    }
  }

  /** If some chunk of the output reports disabled files and none a status, then they
      are the last word in every order of the handlers, before the exit is handled
      (which then shows nothing) and after it. */
  lemma DisabledInEveryOrder(events: seq<Event>)
    requires Happens(OPENED, events)
    requires Allowed(Run(OPENED, events), Handler(RwLock.WorkWriter(0))) || ExitHandled(Run(OPENED, events))
    requires exists chunk :: chunk in Output(events) && ReportsDisabled(chunk)
    requires forall chunk | chunk in Output(events) :: ReportsNoStatus(chunk)
    ensures IsDisabled(Shown(Run(OPENED, events).trace))
    ensures Allowed(Run(OPENED, events), Handler(RwLock.WorkWriter(0))) ==>
              Step(Run(OPENED, events), Handler(RwLock.WorkWriter(0))).trace == Run(OPENED, events).trace
  {
    ExitComesLast(events);
    QuietOutput(Stopped, Inputs(OPENED, events));
    RunEndsDisabledIff(OPENED, events);
  }

  // ----------------------------------------------------------- the failing exit

  /** The chunk holds a start or complete event that the parser gets to. */
  predicate HoldsEvent(lines: seq<Line>) {
    lines != [] && ErrorCall(lines[0]).None? &&
    (lines[0].StartEvent? || lines[0].CompleteEvent? || HoldsEvent(lines[1..]))
  }

  predicate StartsParser(input: Input) {
    input.Printed? && input.chunk.Stdout? && HoldsEvent(input.chunk.lines)
  }

  lemma {:induction false} ParserAfterLines(parser: SyncState, lines: seq<Line>)
    requires parser.Stopped? || IsStatus(parser)
    ensures AfterLines(parser, lines).Stopped? <==> parser.Stopped? && !HoldsEvent(lines)
    ensures AfterLines(parser, lines).Stopped? || IsStatus(AfterLines(parser, lines))
    decreases |lines|
  {
    if lines != [] && ErrorCall(lines[0]).None? {
      ParserAfterLines(AfterLine(parser, lines[0]), lines[1..]);
    }
  }

  lemma {:induction false} ParserAtStart(inputs: seq<Input>)
    ensures ParserAt(Stopped, inputs).Stopped? || IsStatus(ParserAt(Stopped, inputs))
    ensures ParserAt(Stopped, inputs).Stopped? <==> forall i | 0 <= i < |inputs| :: !StartsParser(inputs[i])
  {
    if inputs != [] {
      var front, last := inputs[..|inputs| - 1], inputs[|inputs| - 1];
      ParserAtStart(front);
      assert inputs == front + [last];
      if last.Printed? && last.chunk.Stdout? {
        ParserAfterLines(ParserAt(Stopped, front), last.chunk.lines);
      }
      assert forall i | 0 <= i < |front| :: inputs[i] == front[i];
    }
  }

  /** The user closes the terminal; or stdout reports while no start or complete
      event has come, and so reports the state in which the parser began. */
  predicate ReportsStop(inputs: seq<Input>, k: nat)
    requires k < |inputs|
  {
    inputs[k].Killed? ||
    (inputs[k].Printed? && inputs[k].chunk.Stdout? && FirstError(inputs[k].chunk.lines).None? &&
     forall i | 0 <= i <= k :: !StartsParser(inputs[i]))
  }

  /** Stderr without an error line. */
  predicate IsSilent(input: Input) {
    input.Printed? && input.chunk.Stderr? && FirstError(input.chunk.lines).None?
  }

  predicate LastWordIsStop(inputs: seq<Input>) {
    exists k | 0 <= k < |inputs| :: ReportsStop(inputs, k) && forall j | k < j < |inputs| :: IsSilent(inputs[j])
  }

  predicate NoExit(inputs: seq<Input>) {
    forall i | 0 <= i < |inputs| :: !inputs[i].Exited?
  }

  /** The call of the last input. */
  lemma LastInputCalls(inputs: seq<Input>)
    requires inputs != [] && NoExit(inputs)
    ensures var calls := CallOf(ParserAt(Stopped, inputs[..|inputs| - 1]), inputs[|inputs| - 1]);
            && (calls == [] <==> IsSilent(inputs[|inputs| - 1]))
            && (calls != [] ==> |calls| == 1 && !(calls[0].state.Error? && calls[0].reason.None?))
            && (calls != [] ==> (calls[0].state.Stopped? <==> ReportsStop(inputs, |inputs| - 1)))
  {
    var front, last := inputs[..|inputs| - 1], inputs[|inputs| - 1];
    assert inputs == front + [last];
    if last.Printed? {
      FirstErrorIsError(last.chunk.lines);
      ParserAtStart(front);
      ParserAtStart(inputs);
    }
  }

  lemma LastWordIsStopByParts(inputs: seq<Input>)
    requires inputs != []
    ensures LastWordIsStop(inputs) <==>
            ReportsStop(inputs, |inputs| - 1) ||
            (IsSilent(inputs[|inputs| - 1]) && LastWordIsStop(inputs[..|inputs| - 1]))
  {
    var n := |inputs| - 1;
    var front := inputs[..n];
    assert forall i | 0 <= i < n :: front[i] == inputs[i];
    forall k | 0 <= k < n
      ensures ReportsStop(front, k) <==> ReportsStop(inputs, k)
    {}
  }

  predicate NoBareError(calls: seq<Call>) {
    forall i | 0 <= i < |calls| :: !(calls[i].state.Error? && calls[i].reason.None?)
  }

  lemma {:induction false} LastCallIsStop(inputs: seq<Input>)
    requires NoExit(inputs)
    ensures NoBareError(CallsOf(Stopped, inputs))
    ensures var calls := CallsOf(Stopped, inputs);
            LastWordIsStop(inputs) <==> calls != [] && calls[|calls| - 1].state.Stopped?
  {
    if inputs != [] {
      LastCallIsStop(inputs[..|inputs| - 1]);
      LastInputCalls(inputs);
      LastWordIsStopByParts(inputs);
    }
  }

  lemma {:induction false} StoppedIffLastCall(trace: Trace, calls: seq<Call>)
    requires IsStatus(Shown(trace)) && NoBareError(calls)
    ensures Shown(Replay(trace, calls)).Stopped? <==>
            calls != [] && calls[|calls| - 1].state.Stopped? && !LastWordIsDisabled(calls)
    ensures Replay(trace, calls).Quiet? ==> trace.Quiet?
  {
    if calls != [] {
      var front := calls[..|calls| - 1];
      LastWordByParts(calls);
      StoppedIffLastCall(trace, front);
      DisabledIffLastWord(trace, front);
    }
  }

  lemma {:induction false} NoExitBefore(s: State, events: seq<Event>)
    requires Follows(s) && Happens(s, events)
    ensures ExitHandled(s) ==> ExitHandled(Run(s, events))
    ensures !ExitHandled(Run(s, events)) ==> NoExit(Inputs(s, events))
    decreases |events|
  {
    if events != [] {
      StepKeepsFollows(s, events[0]);
      NoExitBefore(Step(s, events[0]), events[1..]);
    }
  }

  lemma StoppedBeforeExit(events: seq<Event>)
    requires Happens(OPENED, events) && !ExitHandled(Run(OPENED, events))
    ensures var inputs := Inputs(OPENED, events);
            Shown(Run(OPENED, events).trace).Stopped? <==>
            LastWordIsStop(inputs) && !LastWordIsDisabled(CallsOf(Stopped, inputs))
  {
    var inputs := Inputs(OPENED, events);
    OpenedFollows();
    NoExitBefore(OPENED, events);
    RunReplays(OPENED, events);
    LastCallIsStop(inputs);
    StoppedIffLastCall(OPENED.trace, CallsOf(Stopped, inputs));
  }

  lemma ExitShows(s: State)
    requires Allowed(s, Handler(RwLock.WorkWriter(0))) && s.code != 0
    ensures var shown := Shown(Step(s, Handler(RwLock.WorkWriter(0))).trace);
            && (shown.Error? || IsDisabled(shown) <==> !Shown(s.trace).Stopped?)
            && Step(s, Handler(RwLock.WorkWriter(0))).trace ==
               if IsStatus(Shown(s.trace)) then Then(s.trace, Call(Error, None)) else s.trace
  {}

  /** A failing exit leaves an error (or disabled files) on show exactly when the
      output and the user's closing, in the order handled, do not end in a stop that
      disabled files kept from showing. */
  lemma FailingExitIsShownIff(events: seq<Event>)
    requires Happens(OPENED, events)
    requires Allowed(Run(OPENED, events), Handler(RwLock.WorkWriter(0))) && Run(OPENED, events).code != 0
    ensures var inputs := Inputs(OPENED, events);
            var shown := Shown(Step(Run(OPENED, events), Handler(RwLock.WorkWriter(0))).trace);
            shown.Error? || IsDisabled(shown) <==>
            !LastWordIsStop(inputs) || LastWordIsDisabled(CallsOf(Stopped, inputs))
  {
    StoppedBeforeExit(events);
    ExitShows(Run(OPENED, events));
  }

  /** Such a run without the user: stdout prints one line before the first event,
      the process fails, and the terminal shows that it has stopped. */
  lemma EarlyOutputHidesFailure(code: int)
    requires code != 0
    ensures
      var chunk := Stdout([OtherLine]);
      var events := [Data(chunk)] + ([Handler(RwLock.Enter(0))] + ([Handler(RwLock.Acquire(0))] +
                    ([Handler(RwLock.Work(0))] + ([Handler(RwLock.Leave(0))] + ([Exit(code)] +
                    ([Handler(RwLock.PassGate(0))] + ([Handler(RwLock.WorkWriter(0))] + [])))))));
      Happens(OPENED, events) && ExitHandled(Run(OPENED, events)) && Shown(Run(OPENED, events).trace).Stopped?
  {
    var chunk := Stdout([OtherLine]);
    var s1 := Step(OPENED, Data(chunk));
    var s2 := Step(s1, Handler(RwLock.Enter(0)));
    var s3 := Step(s2, Handler(RwLock.Acquire(0)));
    var s4 := Step(s3, Handler(RwLock.Work(0)));
    var s5 := Step(s4, Handler(RwLock.Leave(0)));
    assert [OtherLine][1..] == [];
    assert Shown(s5.trace).Stopped?;
    var tail := ExitAlone(s5, code);
    Prepend(s4, Handler(RwLock.Leave(0)), tail);
    Prepend(s3, Handler(RwLock.Work(0)), [Handler(RwLock.Leave(0))] + tail);
    Prepend(s2, Handler(RwLock.Acquire(0)), [Handler(RwLock.Work(0))] + ([Handler(RwLock.Leave(0))] + tail));
    Prepend(s1, Handler(RwLock.Enter(0)),
            [Handler(RwLock.Acquire(0))] + ([Handler(RwLock.Work(0))] + ([Handler(RwLock.Leave(0))] + tail)));
    Prepend(OPENED, Data(chunk),
            [Handler(RwLock.Enter(0))] + ([Handler(RwLock.Acquire(0))] +
            ([Handler(RwLock.Work(0))] + ([Handler(RwLock.Leave(0))] + tail))));
  }

  /** The exit is handled while nothing else waits and a stop is shown. */
  lemma ExitAlone(s: State, code: int) returns (events: seq<Event>)
    requires s.locks.writers == [] && s.locks.gate == RwLock.Lock(None, []) && s.locks.lock == RwLock.Lock(None, [])
    requires Shown(s.trace).Stopped?
    ensures events == [Exit(code)] + ([Handler(RwLock.PassGate(0))] + ([Handler(RwLock.WorkWriter(0))] + []))
    ensures Happens(s, events) && ExitHandled(Run(s, events)) && Shown(Run(s, events).trace).Stopped?
  {
    var s1 := Step(s, Exit(code));
    var s2 := Step(s1, Handler(RwLock.PassGate(0)));
    var s3 := Step(s2, Handler(RwLock.WorkWriter(0)));
    Prepend(s2, Handler(RwLock.WorkWriter(0)), []);
    Prepend(s1, Handler(RwLock.PassGate(0)), [Handler(RwLock.WorkWriter(0))] + []);
    events := [Handler(RwLock.PassGate(0))] + ([Handler(RwLock.WorkWriter(0))] + []);
    Prepend(s, Exit(code), events);
    events := [Exit(code)] + events;
  }

  lemma Prepend(s: State, e: Event, events: seq<Event>)
    requires Allowed(s, e) && Happens(Step(s, e), events)
    ensures Happens(s, [e] + events) && Run(s, [e] + events) == Run(Step(s, e), events)
  {
    assert ([e] + events)[1..] == events;
  }
}
