/** The child-process runner `run` (packages/databricks-vscode/src/cli/cliProcess.ts)
    as a machine that reacts to the events of the child, of the cancellation
    token and of the timers, in every order.

    `terminateFn` may make further events arrive before it returns; a step that
    calls it carries them along. A close says whether the callbacks would throw on
    the tails that are flushed then. */
module CliProcess {
  import opened Wrappers
  import opened Utf8

  datatype Event =
    | StdoutData(bytes: Bytes)
    | StderrData(bytes: Bytes)
    | StreamError(during: seq<Event>)
    | SpawnError
    | Close(code: Option<int>, stdoutThrows: bool, stderrThrows: bool)
    | CancelFired(during: seq<Event>)
    | TimerFired(id: nat)

  datatype RunResult = RunResult(stdout: Text, stderr: Text, exitCode: Option<int>, cancelled: bool)

  /** What reaches a run and what it does. */
  datatype Happening =
    | GotStdout(bytes: Bytes)
    | GotStderr(bytes: Bytes)
    | CancelRequested
    | Terminated
    | ForceTerminated
    | SubscriptionDisposed
    | ToldStdout(text: Text)
    | ToldStderr(text: Text)
    | Threw                          // a callback threw out of the close handler
    | Resolved(result: RunResult)
    | Rejected

  /** The history of a run, the latest happening last. */
  datatype History = Beginning | After(before: History, last: Happening)

  /** One of the two output streams: the bytes kept for the result, and the
      decoder that feeds the callback, if there is one. */
  datatype Channel = Channel(chunks: seq<Bytes>, decoder: Held, callback: bool)

  /** Whether the cancellation token is listened to, and whether `cancelSub` is set. */
  datatype Subscription = NoToken | Subscribing | Subscribed | Disposed

  datatype State = State(
    settled: bool,
    cancelled: bool,
    cancelSub: Subscription,
    forceKillTimer: Option<nat>,
    timers: set<nat>,
    nextTimer: nat,
    out: Channel,
    err: Channel,
    log: History)

  // ------------------------------------------------------------------- steps

  function Initial(hasToken: bool, onStdout: bool, onStderr: bool): State {
    State(false, false, if hasToken then Subscribing else NoToken, None, {}, 0,
          Channel([], NOTHING, onStdout), Channel([], NOTHING, onStderr), Beginning)
  }

  function Log(s: State, h: Happening): State {
    s.(log := After(s.log, h))
  }

  function TellStdout(s: State, text: Text): State {
    if text == [] then s else Log(s, ToldStdout(text))
  }

  function TellStderr(s: State, text: Text): State {
    if text == [] then s else Log(s, ToldStderr(text))
  }

  function OnStdoutData(s: State, b: Bytes): State {
    var kept := Log(s, GotStdout(b)).(out := s.out.(chunks := s.out.chunks + [b]));
    if !s.out.callback then kept
    else
      var (text, held) := Write(s.out.decoder, b);
      TellStdout(kept.(out := kept.out.(decoder := held)), text)
  }

  function OnStderrData(s: State, b: Bytes): State {
    var kept := Log(s, GotStderr(b)).(err := s.err.(chunks := s.err.chunks + [b]));
    if !s.err.callback then kept
    else
      var (text, held) := Write(s.err.decoder, b);
      TellStderr(kept.(err := kept.err.(decoder := held)), text)
  }

  /** `finish` up to the call of its argument. */
  function Settle(s: State): State
    requires !s.settled
  {
    var stopped := s.(settled := true,
                      timers := if s.forceKillTimer.Some? then s.timers - {s.forceKillTimer.value} else s.timers);
    if s.cancelSub == Subscribed then Log(stopped, SubscriptionDisposed).(cancelSub := Disposed) else stopped
  }

  function FlushStdout(s: State): State {
    if !s.out.callback then s
    else TellStdout(s, Flush(s.out.decoder)).(out := s.out.(decoder := NOTHING))
  }

  function FlushStderr(s: State): State {
    if !s.err.callback then s
    else TellStderr(s, Flush(s.err.decoder)).(err := s.err.(decoder := NOTHING))
  }

  function Tail(c: Channel): Text {
    if c.callback then Flush(c.decoder) else []
  }

  /** The run resolves with all the output. */
  function Deliver(s: State, code: Option<int>): State {
    Log(s, Resolved(RunResult(Decode(Concat(s.out.chunks)), Decode(Concat(s.err.chunks)), code, s.cancelled)))
  }

  /** `settleResult`; an exception of a callback leaves `finish` halfway. */
  function Resolve(s: State, code: Option<int>, stdoutThrows: bool, stderrThrows: bool): State
    requires !s.settled
  {
    var s1 := FlushStdout(Settle(s));
    if stdoutThrows && Tail(s.out) != [] then Log(s1, Threw)
    else
      var s2 := FlushStderr(s1);
      if stderrThrows && Tail(s.err) != [] then Log(s2, Threw) else Deliver(s2, code)
  }

  predicate Live(cancelSub: Subscription) {
    cancelSub == Subscribing || cancelSub == Subscribed
  }

  function ArmTimer(s: State): State {
    s.(forceKillTimer := Some(s.nextTimer), timers := s.timers + {s.nextTimer}, nextTimer := s.nextTimer + 1)
  }

  function Step(s: State, e: Event): State
    decreases e
  {
    match e
    case StdoutData(b) => OnStdoutData(s, b)
    case StderrData(b) => OnStderrData(s, b)
    case StreamError(during) =>
      if s.settled then s else Log(Steps(Log(Settle(s), Terminated), during), Rejected)
    case SpawnError =>
      if s.settled then s else Log(Settle(s), Rejected)
    case Close(code, stdoutThrows, stderrThrows) =>
      if s.settled then s else Resolve(s, code, stdoutThrows, stderrThrows)
    case CancelFired(during) =>
      if !Live(s.cancelSub) then s
      else
        var s' := Steps(Log(Log(s.(cancelled := true), CancelRequested), Terminated), during);
        if s'.settled then s' else ArmTimer(s')
    case TimerFired(id) =>
      if id !in s.timers then s
      else
        var s' := s.(timers := s.timers - {id});
        if s.settled then s' else Log(s', ForceTerminated)
  }

  function Steps(s: State, events: seq<Event>): State
    decreases events
  {
    if events == [] then s else Steps(Step(s, events[0]), events[1..])
  }

  /** `cancelSub = token?.onCancellationRequested(requestCancel)` and the test
      after it; a token that has already fired reports so while subscribing. */
  function Subscribe(s: State, during: seq<Event>): State {
    if s.cancelSub != Subscribing then s
    else
      var s' := Steps(s, during);
      if s'.settled then Log(s', SubscriptionDisposed).(cancelSub := Disposed)
      else s'.(cancelSub := Subscribed)
  }

  /** A run: subscription first, and then any events in any order. */
  function Run(hasToken: bool, onStdout: bool, onStderr: bool, during: seq<Event>, events: seq<Event>): State {
    Steps(Subscribe(Initial(hasToken, onStdout, onStderr), during), events)
  }

  // ------------------------------------------------------------- what a log says

  /** What a log amounts to. `stdout` and `stderr` are the bytes that arrived,
      `toldOut` and `toldErr` the texts the callbacks were called with. */
  datatype Past = Past(
    stdout: Bytes, stderr: Bytes, toldOut: Text, toldErr: Text,
    cancelRequested: bool, terminations: nat, kills: nat, disposals: nat, throws: nat, settlements: nat)

  function Then(past: Past, h: Happening): Past {
    match h
    case GotStdout(b) => past.(stdout := past.stdout + b)
    case GotStderr(b) => past.(stderr := past.stderr + b)
    case ToldStdout(text) => past.(toldOut := past.toldOut + text)
    case ToldStderr(text) => past.(toldErr := past.toldErr + text)
    case CancelRequested => past.(cancelRequested := true)
    case Terminated => past.(terminations := past.terminations + 1)
    case ForceTerminated => past.(kills := past.kills + 1)
    case SubscriptionDisposed => past.(disposals := past.disposals + 1)
    case Threw => past.(throws := past.throws + 1)
    case Resolved(_) => past.(settlements := past.settlements + 1)
    case Rejected => past.(settlements := past.settlements + 1)
  }

  function PastOf(log: History): Past {
    match log
    case Beginning => Past([], [], [], [], false, 0, 0, 0, 0, 0)
    case After(before, h) => Then(PastOf(before), h)
  }

  /** Whether `h` may happen after `past`, in a run with the given callbacks:
      - a run settles once, and not after an exception has left it halfway;
      - it kills by force only after it asked the child to terminate because of
        a cancellation, and never once it has settled;
      - it gives the subscription back once;
      - it resolves as cancelled exactly if a cancellation was requested, with
        all the output, and the callbacks were told the same text. */
  predicate Allowed(past: Past, h: Happening, onStdout: bool, onStderr: bool) {
    match h
    case Rejected => past.settlements == 0 && past.throws == 0
    case Threw => past.settlements == 0 && past.throws == 0
    case ForceTerminated => past.settlements == 0 && past.cancelRequested && past.terminations > 0
    case SubscriptionDisposed => past.disposals == 0
    case Resolved(r) =>
      && past.settlements == 0 && past.throws == 0
      && (r.cancelled <==> past.cancelRequested)
      && r.stdout == Decode(past.stdout) && r.stderr == Decode(past.stderr)
      && (onStdout && CutShort(past.stdout) ==> past.toldOut == r.stdout)
      && (onStderr && CutShort(past.stderr) ==> past.toldErr == r.stderr)
    case _ => true
  }

  /** Everything in the log was allowed when it happened. */
  predicate Lawful(log: History, onStdout: bool, onStderr: bool) {
    log.After? ==>
      && Lawful(log.before, onStdout, onStderr)
      && Allowed(PastOf(log.before), log.last, onStdout, onStderr)
  }

  // --------------------------------------------------------------- invariant

  ghost predicate ChannelMatches(c: Channel, bytes: Bytes, told: Text) {
    Concat(c.chunks) == bytes && (c.callback ==> WriteAll(c.chunks) == (told, c.decoder))
  }

  ghost predicate InvAt(s: State, past: Past) {
    && (s.timers != {} ==> past.cancelRequested && past.terminations > 0)
    && (forall id | id in s.timers :: id < s.nextTimer)
    && past.disposals == (if s.cancelSub == Disposed then 1 else 0)
    && (s.cancelSub == Disposed ==> s.settled)
    && (s.settled ==> s.cancelSub != Subscribed)
    && past.settlements + past.throws <= 1
    && (!s.settled ==>
          && past.settlements == 0 && past.throws == 0
          && (s.cancelled <==> past.cancelRequested)
          && ChannelMatches(s.out, past.stdout, past.toldOut)
          && ChannelMatches(s.err, past.stderr, past.toldErr))
  }

  ghost predicate Inv(s: State) {
    Lawful(s.log, s.out.callback, s.err.callback) && InvAt(s, PastOf(s.log))
  }

  /** What no part of a step undoes. */
  ghost predicate Grows(s: State, s': State) {
    && s'.out.callback == s.out.callback && s'.err.callback == s.err.callback
    && (PastOf(s.log).cancelRequested ==> PastOf(s'.log).cancelRequested)
    && PastOf(s.log).terminations <= PastOf(s'.log).terminations
    && PastOf(s.log).kills <= PastOf(s'.log).kills
    && (s.settled ==> s'.settled)
    && (s'.cancelSub == s.cancelSub || (s.cancelSub == Subscribed && s'.cancelSub == Disposed))
  }

  ghost predicate SameOutput(s: State, s': State) {
    s'.out.chunks == s.out.chunks && s'.err.chunks == s.err.chunks && s'.cancelled == s.cancelled
  }

  /** What every event keeps, nested or not. */
  ghost predicate Keeps(s: State, s': State) {
    && Inv(s') && Grows(s, s')
    && (s.settled ==>
          PastOf(s'.log).settlements == PastOf(s.log).settlements && PastOf(s'.log).throws == PastOf(s.log).throws)
    && (!s.settled && s'.settled ==> PastOf(s'.log).settlements + PastOf(s'.log).throws == 1)
  }

  /** One more chunk for a channel. */
  lemma ChannelGrows(c: Channel, bytes: Bytes, told: Text, chunk: Bytes)
    requires ChannelMatches(c, bytes, told)
    ensures Concat(c.chunks + [chunk]) == bytes + chunk
    ensures c.callback ==>
      var (text, held) := Write(c.decoder, chunk); WriteAll(c.chunks + [chunk]) == (told + text, held)
  {
    assert (c.chunks + [chunk])[..|c.chunks|] == c.chunks;
  }

  lemma StdoutKeeps(s: State, b: Bytes)
    requires Inv(s)
    ensures Keeps(s, OnStdoutData(s, b))
  {
    var past, text, s' := PastOf(s.log), Write(s.out.decoder, b).0, OnStdoutData(s, b);
    assert past.toldOut + [] == past.toldOut;
    var told := if s.out.callback then text else [];
    assert PastOf(s'.log) == past.(stdout := past.stdout + b, toldOut := past.toldOut + told);
    if !s.settled {
      ChannelGrows(s.out, past.stdout, past.toldOut, b);
    }
  }

  lemma StderrKeeps(s: State, b: Bytes)
    requires Inv(s)
    ensures Keeps(s, OnStderrData(s, b))
  {
    var past, text, s' := PastOf(s.log), Write(s.err.decoder, b).0, OnStderrData(s, b);
    assert past.toldErr + [] == past.toldErr;
    var told := if s.err.callback then text else [];
    assert PastOf(s'.log) == past.(stderr := past.stderr + b, toldErr := past.toldErr + told);
    if !s.settled {
      ChannelGrows(s.err, past.stderr, past.toldErr, b);
    }
  }

  lemma SettleKeeps(s: State)
    requires Inv(s) && !s.settled
    ensures Inv(Settle(s)) && Grows(s, Settle(s))
    ensures PastOf(Settle(s).log) == PastOf(s.log).(disposals := PastOf(Settle(s).log).disposals)
  {
  }

  lemma TellStdoutKeeps(s: State, text: Text)
    requires Inv(s) && s.settled
    ensures var s' := TellStdout(s, text);
            Inv(s') && Grows(s, s') && PastOf(s'.log) == PastOf(s.log).(toldOut := PastOf(s.log).toldOut + text)
  {
    if text == [] {
      assert PastOf(s.log).toldOut + text == PastOf(s.log).toldOut;
    }
  }

  lemma FlushStdoutKeeps(s: State)
    requires Inv(s) && s.settled
    ensures Inv(FlushStdout(s)) && Grows(s, FlushStdout(s)) && SameOutput(s, FlushStdout(s))
    ensures PastOf(FlushStdout(s).log) == PastOf(s.log).(toldOut := PastOf(s.log).toldOut + Tail(s.out))
    ensures FlushStdout(s).err == s.err
  {
    TellStdoutKeeps(s, Tail(s.out));
    assert PastOf(s.log).toldOut + [] == PastOf(s.log).toldOut;
  }

  lemma TellStderrKeeps(s: State, text: Text)
    requires Inv(s) && s.settled
    ensures var s' := TellStderr(s, text);
            Inv(s') && Grows(s, s') && PastOf(s'.log) == PastOf(s.log).(toldErr := PastOf(s.log).toldErr + text)
  {
    if text == [] {
      assert PastOf(s.log).toldErr + text == PastOf(s.log).toldErr;
    }
  }

  lemma FlushStderrKeeps(s: State)
    requires Inv(s) && s.settled
    ensures Inv(FlushStderr(s)) && Grows(s, FlushStderr(s)) && SameOutput(s, FlushStderr(s))
    ensures PastOf(FlushStderr(s).log) == PastOf(s.log).(toldErr := PastOf(s.log).toldErr + Tail(s.err))
    ensures FlushStderr(s).out == s.out
  {
    TellStderrKeeps(s, Tail(s.err));
    assert PastOf(s.log).toldErr + [] == PastOf(s.log).toldErr;
  }

  /** What a callback has been told, with the tail, is the whole text. */
  lemma ToldIsText(c: Channel, bytes: Bytes, told: Text)
    requires ChannelMatches(c, bytes, told) && c.callback && CutShort(bytes)
    ensures told + Flush(c.decoder) == Decode(bytes)
  {
    ChunksDecodeAsWhole(c.chunks);
  }

  /** `settleResult` up to the first callback. */
  lemma FirstTail(s: State) returns (s': State)
    requires Inv(s) && !s.settled
    ensures s' == FlushStdout(Settle(s)) && s'.settled && s'.err == s.err
    ensures Inv(s') && Grows(s, s') && SameOutput(s, s')
    ensures PastOf(s'.log) == PastOf(s.log).(
              disposals := PastOf(s'.log).disposals, toldOut := PastOf(s.log).toldOut + Tail(s.out))
  {
    SettleKeeps(s);
    FlushStdoutKeeps(Settle(s));
    s' := FlushStdout(Settle(s));
  }

  /** Everything it does before it resolves. */
  lemma BothTails(s: State) returns (s': State)
    requires Inv(s) && !s.settled
    ensures s' == FlushStderr(FlushStdout(Settle(s))) && s'.settled
    ensures Inv(s') && Grows(s, s') && SameOutput(s, s')
    ensures PastOf(s'.log) == PastOf(s.log).(
              disposals := PastOf(s'.log).disposals,
              toldOut := PastOf(s.log).toldOut + Tail(s.out),
              toldErr := PastOf(s.log).toldErr + Tail(s.err))
  {
    var first := FirstTail(s);
    FlushStderrKeeps(first);
    s' := FlushStderr(first);
  }

  lemma ThrowKeeps(s: State, s': State)
    requires Inv(s) && !s.settled && s'.settled && Inv(s') && Grows(s, s')
    requires PastOf(s'.log).settlements == 0 && PastOf(s'.log).throws == 0
    ensures Keeps(s, Log(s', Threw)) && PastOf(Log(s', Threw).log).throws == 1
  {}

  lemma DeliverKeeps(s: State, s': State, code: Option<int>)
    requires Inv(s) && !s.settled && s'.settled && Inv(s') && Grows(s, s') && SameOutput(s, s')
    requires PastOf(s'.log) == PastOf(s.log).(
               disposals := PastOf(s'.log).disposals,
               toldOut := PastOf(s.log).toldOut + Tail(s.out),
               toldErr := PastOf(s.log).toldErr + Tail(s.err))
    ensures Keeps(s, Deliver(s', code)) && Deliver(s', code).settled
    ensures PastOf(Deliver(s', code).log).settlements == 1
  {
    var past := PastOf(s.log);
    if s.out.callback && CutShort(past.stdout) {
      ToldIsText(s.out, past.stdout, past.toldOut);
    }
    if s.err.callback && CutShort(past.stderr) {
      ToldIsText(s.err, past.stderr, past.toldErr);
    }
    FinalLog(s', RunResult(Decode(past.stdout), Decode(past.stderr), code, s.cancelled));
  }

  /** Whether a callback throws on the tail it is told at the close. */
  predicate ThrowsAtClose(s: State, e: Event)
    requires e.Close?
  {
    (e.stdoutThrows && Tail(s.out) != []) || (e.stderrThrows && Tail(s.err) != [])
  }

  lemma ResolveKeeps(s: State, e: Event)
    requires Inv(s) && !s.settled && e.Close?
    ensures Keeps(s, Step(s, e)) && Step(s, e).settled
    ensures PastOf(Step(s, e).log).settlements == (if ThrowsAtClose(s, e) then 0 else 1)
  {
    var first := FirstTail(s);
    var both := BothTails(s);
    if e.stdoutThrows && Tail(s.out) != [] {
      ThrowKeeps(s, first);
    } else if e.stderrThrows && Tail(s.err) != [] {
      ThrowKeeps(s, both);
    } else {
      DeliverKeeps(s, both, e.code);
    }
  }

  lemma FinalLog(s: State, result: RunResult)
    requires Inv(s) && s.settled && Allowed(PastOf(s.log), Resolved(result), s.out.callback, s.err.callback)
    ensures Inv(Log(s, Resolved(result))) && Grows(s, Log(s, Resolved(result)))
    ensures PastOf(Log(s, Resolved(result)).log).settlements == 1
    ensures PastOf(Log(s, Resolved(result)).log).throws == 0
  {
  }

  lemma RejectKeeps(s: State)
    requires Inv(s) && s.settled && PastOf(s.log).settlements == 0 && PastOf(s.log).throws == 0
    ensures Inv(Log(s, Rejected)) && Grows(s, Log(s, Rejected))
    ensures PastOf(Log(s, Rejected).log).settlements == 1 && PastOf(Log(s, Rejected).log).throws == 0
  {
  }

  /** `terminateFn` is about to be called. */
  lemma TerminateKeeps(s: State)
    requires Inv(s)
    ensures Keeps(s, Log(s, Terminated))
  {
  }

  lemma RequestKeeps(s: State)
    requires Inv(s)
    ensures var s' := Log(Log(s.(cancelled := true), CancelRequested), Terminated);
            Keeps(s, s') && PastOf(s'.log).cancelRequested && PastOf(s'.log).terminations > 0
  {
  }

  lemma ArmTimerKeeps(s: State)
    requires Inv(s) && PastOf(s.log).cancelRequested && PastOf(s.log).terminations > 0
    ensures Inv(ArmTimer(s)) && Grows(s, ArmTimer(s))
  {
  }

  lemma TimerKeeps(s: State, id: nat)
    requires Inv(s) && id in s.timers
    ensures Keeps(s, Step(s, TimerFired(id)))
  {
  }

  lemma {:induction false} StepKeeps(s: State, e: Event)
    requires Inv(s)
    ensures Keeps(s, Step(s, e))
    decreases e
  {
    match e
    case StdoutData(b) => StdoutKeeps(s, b);
    case StderrData(b) => StderrKeeps(s, b);
    case StreamError(during) =>
      if !s.settled {
        SettleKeeps(s);
        TerminateKeeps(Settle(s));
        StepsKeep(Log(Settle(s), Terminated), during);
        RejectKeeps(Steps(Log(Settle(s), Terminated), during));
      }
    case SpawnError =>
      if !s.settled {
        SettleKeeps(s);
        RejectKeeps(Settle(s));
      }
    case Close(_, _, _) =>
      if !s.settled {
        ResolveKeeps(s, e);
      }
    case CancelFired(during) =>
      if Live(s.cancelSub) {
        RequestKeeps(s);
        StepsKeep(Log(Log(s.(cancelled := true), CancelRequested), Terminated), during);
        ArmTimerKeeps(Steps(Log(Log(s.(cancelled := true), CancelRequested), Terminated), during));
      }
    case TimerFired(id) =>
      if id in s.timers {
        TimerKeeps(s, id);
      }
  }

  lemma {:induction false} StepsKeep(s: State, events: seq<Event>)
    requires Inv(s)
    ensures Keeps(s, Steps(s, events))
    decreases events
  {
    if events != [] {
      StepKeeps(s, events[0]);
      StepsKeep(Step(s, events[0]), events[1..]);
    }
  }

  // ------------------------------------------------------------------- theorems

  lemma SubscribeKeeps(s: State, during: seq<Event>)
    requires Inv(s) && !s.settled && (s.cancelSub == Subscribing || s.cancelSub == NoToken)
    ensures var s' := Subscribe(s, during);
            && Inv(s') && s'.out.callback == s.out.callback && s'.err.callback == s.err.callback
            && (if s.cancelSub == NoToken then s'.cancelSub == NoToken else s'.cancelSub.Subscribed? || s'.cancelSub.Disposed?)
            && PastOf(s'.log).settlements + PastOf(s'.log).throws == (if s'.settled then 1 else 0)
  {
    StepsKeep(s, during);
  }

  /** Every run, in every order of events: the log is lawful; once it is marked as
      settled its promise has been settled, or an exception has left it, and not
      both; and a subscription has been given back, once, exactly then. */
  lemma RunIsLawful(hasToken: bool, onStdout: bool, onStderr: bool, during: seq<Event>, events: seq<Event>)
    ensures var s := Run(hasToken, onStdout, onStderr, during, events);
            && Lawful(s.log, onStdout, onStderr)
            && PastOf(s.log).settlements + PastOf(s.log).throws == (if s.settled then 1 else 0)
            && PastOf(s.log).disposals == (if s.settled && hasToken then 1 else 0)
  {
    var s0 := Initial(hasToken, onStdout, onStderr);
    SubscribeKeeps(s0, during);
    StepsKeep(Subscribe(s0, during), events);
  }

  predicate Ends(e: Event) {
    e.Close? || e.SpawnError? || e.StreamError?
  }

  /** A run settles as soon as the child closes or an error is reported. */
  lemma {:induction false} EndedRunIsSettled(s: State, events: seq<Event>, i: nat)
    requires Inv(s) && i < |events| && Ends(events[i])
    ensures Steps(s, events).settled
    decreases i
  {
    StepKeeps(s, events[0]);
    if i > 0 {
      EndedRunIsSettled(Step(s, events[0]), events[1..], i - 1);
    } else {
      EndingSettles(s, events[0]);
      StepsKeep(Step(s, events[0]), events[1..]);
    }
  }

  lemma EndingSettles(s: State, e: Event)
    requires Inv(s) && Ends(e)
    ensures Step(s, e).settled
  {
    match e
    case StreamError(during) =>
      if !s.settled {
        SettleKeeps(s);
        TerminateKeeps(Settle(s));
        StepsKeep(Log(Settle(s), Terminated), during);
      }
    case Close(_, _, _) =>
      if !s.settled {
        ResolveKeeps(s, e);
      }
    case SpawnError =>
  }

  // ------------------------------------------------------ how a run comes out

  predicate IsEnding(h: Happening) {
    h.Resolved? || h.Rejected? || h.Threw?
  }

  /** How the promise was settled, or left. */
  function Endings(log: History): seq<Happening> {
    match log
    case Beginning => []
    case After(before, h) => Endings(before) + if IsEnding(h) then [h] else []
  }

  lemma {:induction false} EndingsCount(log: History)
    ensures |Endings(log)| == PastOf(log).settlements + PastOf(log).throws
  {
    if log.After? {
      EndingsCount(log.before);
    }
  }

  /** The two events that hold other events, with what they log themselves. */
  lemma EndingsOfNesting(s: State, e: Event)
    ensures e.StreamError? && !s.settled ==>
              var s1 := Log(Settle(s), Terminated);
              Endings(s1.log) == Endings(s.log) && Endings(Step(s, e).log) == Endings(Steps(s1, e.during).log) + [Rejected]
    ensures e.CancelFired? && Live(s.cancelSub) ==>
              var s1 := Log(Log(s.(cancelled := true), CancelRequested), Terminated);
              Endings(s1.log) == Endings(s.log) && Endings(Step(s, e).log) == Endings(Steps(s1, e.during).log)
  {
    EndingsOfParts(s);
  }

  lemma EndingsOfParts(s: State)
    ensures !s.settled ==> Endings(Settle(s).log) == Endings(s.log)
    ensures Endings(FlushStdout(s).log) == Endings(s.log) == Endings(FlushStderr(s).log)
  {}

  lemma {:induction false} EndingsStay(s: State, e: Event)
    ensures Endings(s.log) <= Endings(Step(s, e).log)
    decreases e
  {
    EndingsOfNesting(s, e);
    match e
    case StreamError(during) =>
      if !s.settled {
        EndingsStayAll(Log(Settle(s), Terminated), during);
      }
    case CancelFired(during) =>
      if Live(s.cancelSub) {
        EndingsStayAll(Log(Log(s.(cancelled := true), CancelRequested), Terminated), during);
      }
    case _ => PlainResolvesWith(s, e);
  }

  lemma {:induction false} EndingsStayAll(s: State, events: seq<Event>)
    ensures Endings(s.log) <= Endings(Steps(s, events).log)
    decreases events
  {
    if events != [] {
      EndingsStay(s, events[0]);
      EndingsStayAll(Step(s, events[0]), events[1..]);
    }
  }

  /** Once there is an ending, there is no other. */
  lemma EndingIsFinal(s: State, later: seq<Event>)
    requires Inv(s) && s.settled && |Endings(s.log)| == 1
    ensures Endings(Steps(s, later).log) == Endings(s.log)
  {
    StepsKeep(s, later);
    EndingsStayAll(s, later);
    EndingsCount(s.log);
    EndingsCount(Steps(s, later).log);
  }

  /** The close of the child settles the promise exactly when no callback throws on
      a tail: with all the output, the code of the close, and whether a cancellation
      was requested. If one does, the promise is never settled, whatever else
      happens. */
  lemma CloseSettlesIff(s: State, e: Event, later: seq<Event>)
    requires Inv(s) && !s.settled && e.Close?
    ensures var end, past := Steps(Step(s, e), later), PastOf(s.log);
            && end.settled
            && PastOf(end.log).settlements == (if ThrowsAtClose(s, e) then 0 else 1)
            && Endings(end.log) ==
               [if ThrowsAtClose(s, e) then Threw
                else Resolved(RunResult(Decode(past.stdout), Decode(past.stderr), e.code, past.cancelRequested))]
  {
    ResolveKeeps(s, e);
    StepsKeep(Step(s, e), later);
    CloseEnds(s, e);
    EndingIsFinal(Step(s, e), later);
  }

  lemma CloseEnds(s: State, e: Event)
    requires Inv(s) && !s.settled && e.Close?
    ensures var past := PastOf(s.log);
            Endings(Step(s, e).log) ==
            [if ThrowsAtClose(s, e) then Threw
             else Resolved(RunResult(Decode(past.stdout), Decode(past.stderr), e.code, past.cancelRequested))]
  {
    EndingsCount(s.log);
    EndingsOfParts(s);
    EndingsOfParts(Settle(s));
    EndingsOfParts(FlushStdout(Settle(s)));
    var both := BothTails(s);
    assert Endings(both.log) == [];
    DeliverEnds(s, both, e.code);
  }

  lemma DeliverEnds(s: State, both: State, code: Option<int>)
    requires Inv(s) && !s.settled && SameOutput(s, both) && Endings(both.log) == []
    ensures var past := PastOf(s.log);
            Endings(Deliver(both, code).log) ==
            [Resolved(RunResult(Decode(past.stdout), Decode(past.stderr), code, past.cancelRequested))]
  {}

  /** An error that finds the run unsettled rejects it; the child is terminated when
      the error is one of its streams, and not when it could not be started. */
  lemma ErrorRejects(s: State, e: Event, later: seq<Event>)
    requires Inv(s) && !s.settled && (e.StreamError? || e.SpawnError?)
    ensures Endings(Steps(Step(s, e), later).log) == [Rejected]
    ensures e.SpawnError? ==> PastOf(Step(s, e).log).terminations == PastOf(s.log).terminations
    ensures e.StreamError? ==> PastOf(Step(s, e).log).terminations > PastOf(s.log).terminations
  {
    EndingSettles(s, e);
    StepKeeps(s, e);
    EndingsCount(Step(s, e).log);
    if e.StreamError? {
      StreamErrorTerminates(s, e.during);
      EndingsOfNesting(s, e);
    } else {
      SettleKeeps(s);
    }
    EndingIsFinal(Step(s, e), later);
  }

  lemma StreamErrorTerminates(s: State, during: seq<Event>)
    requires Inv(s) && !s.settled
    ensures PastOf(Step(s, StreamError(during)).log).terminations > PastOf(s.log).terminations
  {
    SettleKeeps(s);
    TerminateKeeps(Settle(s));
    StepsKeep(Log(Settle(s), Terminated), during);
  }

  /** The codes of the close events in an event, those inside it included. */
  function CodesOf(e: Event): set<Option<int>>
    decreases e
  {
    match e
    case Close(code, _, _) => {code}
    case StreamError(during) => CodesOfAll(during)
    case CancelFired(during) => CodesOfAll(during)
    case _ => {}
  }

  function CodesOfAll(events: seq<Event>): set<Option<int>>
    decreases events
  {
    if events == [] then {} else CodesOf(events[0]) + CodesOfAll(events[1..])
  }

  /** What an event adds to the endings: a result only with the code of a close. */
  ghost predicate ResolvesWith(s: State, s': State, codes: set<Option<int>>) {
    forall h | h in Endings(s'.log) && h.Resolved? :: h in Endings(s.log) || h.result.exitCode in codes
  }

  lemma CloseResolvesWith(s: State, e: Event)
    requires e.Close? && !s.settled
    ensures Endings(s.log) <= Endings(Step(s, e).log) && ResolvesWith(s, Step(s, e), {e.code})
  {
    EndingsOfParts(s);
    EndingsOfParts(Settle(s));
    EndingsOfParts(FlushStdout(Settle(s)));
  }

  lemma AddsNoResult(s: State, e: Event)
    requires !e.StreamError? && !e.CancelFired? && (e.Close? ==> s.settled)
    ensures Endings(Step(s, e).log) == Endings(s.log) || Endings(Step(s, e).log) == Endings(s.log) + [Rejected]
  {
    match e
    case StdoutData(b) => DataIsNoEnding(s, b);
    case StderrData(b) => DataIsNoEnding(s, b);
    case SpawnError => EndingsOfParts(s);
    case TimerFired(_) =>
    case Close(_, _, _) =>
  }

  lemma DataIsNoEnding(s: State, b: Bytes)
    ensures Endings(OnStdoutData(s, b).log) == Endings(s.log) == Endings(OnStderrData(s, b).log)
  {}

  lemma PlainResolvesWith(s: State, e: Event)
    requires !e.StreamError? && !e.CancelFired?
    ensures Endings(s.log) <= Endings(Step(s, e).log) && ResolvesWith(s, Step(s, e), CodesOf(e))
  {
    if e.Close? && !s.settled {
      CloseResolvesWith(s, e);
    } else {
      AddsNoResult(s, e);
    }
  }

  lemma {:induction false} StepResolvesWith(s: State, e: Event)
    ensures ResolvesWith(s, Step(s, e), CodesOf(e))
    decreases e
  {
    EndingsOfNesting(s, e);
    match e
    case StreamError(during) =>
      if !s.settled {
        StepsResolveWith(Log(Settle(s), Terminated), during);
      }
    case CancelFired(during) =>
      if Live(s.cancelSub) {
        StepsResolveWith(Log(Log(s.(cancelled := true), CancelRequested), Terminated), during);
      }
    case _ => PlainResolvesWith(s, e);
  }

  lemma {:induction false} StepsResolveWith(s: State, events: seq<Event>)
    ensures ResolvesWith(s, Steps(s, events), CodesOfAll(events))
    decreases events
  {
    if events != [] {
      StepResolvesWith(s, events[0]);
      StepsResolveWith(Step(s, events[0]), events[1..]);
    }
  }

  /** In every run, a result has the exit code of a close event. */
  lemma RunResolvesWith(
      hasToken: bool, onStdout: bool, onStderr: bool, during: seq<Event>, events: seq<Event>, result: RunResult)
    requires Resolved(result) in Endings(Run(hasToken, onStdout, onStderr, during, events).log)
    ensures result.exitCode in CodesOfAll(during) + CodesOfAll(events)
  {
    var s0 := Initial(hasToken, onStdout, onStderr);
    StepsResolveWith(s0, during);
    StepsResolveWith(Subscribe(s0, during), events);
  }

  /** The callback throws at the close, on output that stops inside a character. */
  predicate ThrowsOnTail(callback: bool, throws: bool, bytes: Bytes) {
    callback && throws && !WellFormed(bytes)
  }

  lemma TailIsEmptyIff(c: Channel, bytes: Bytes, told: Text)
    requires ChannelMatches(c, bytes, told) && c.callback && CutShort(bytes)
    ensures Tail(c) == [] <==> WellFormed(bytes)
  {
    FlushesNothingIff(c.chunks);
  }

  /** The same by the bytes received, in every run whose output is well formed or
      stops inside a character. */
  lemma CloseSettlesIffWhole(hasToken: bool, onStdout: bool, onStderr: bool, during: seq<Event>, events: seq<Event>,
                             e: Event, later: seq<Event>)
    requires var s := Run(hasToken, onStdout, onStderr, during, events);
             && !s.settled && e.Close?
             && (onStdout ==> CutShort(PastOf(s.log).stdout)) && (onStderr ==> CutShort(PastOf(s.log).stderr))
    ensures var s := Run(hasToken, onStdout, onStderr, during, events);
            var end := Steps(Step(s, e), later);
            && end.settled
            && PastOf(end.log).settlements ==
               (if ThrowsOnTail(onStdout, e.stdoutThrows, PastOf(s.log).stdout) ||
                   ThrowsOnTail(onStderr, e.stderrThrows, PastOf(s.log).stderr) then 0 else 1)
  {
    var s := Run(hasToken, onStdout, onStderr, during, events);
    RunHasInv(hasToken, onStdout, onStderr, during, events);
    if onStdout {
      TailIsEmptyIff(s.out, PastOf(s.log).stdout, PastOf(s.log).toldOut);
    }
    if onStderr {
      TailIsEmptyIff(s.err, PastOf(s.log).stderr, PastOf(s.log).toldErr);
    }
    CloseSettlesIff(s, e, later);
  }

  lemma RunHasInv(hasToken: bool, onStdout: bool, onStderr: bool, during: seq<Event>, events: seq<Event>)
    ensures var s := Run(hasToken, onStdout, onStderr, during, events);
            Inv(s) && s.out.callback == onStdout && s.err.callback == onStderr
  {
    var s0 := Initial(hasToken, onStdout, onStderr);
    SubscribeKeeps(s0, during);
    StepsKeep(Subscribe(s0, during), events);
  }

  lemma TwoSteps(s: State, one: Event, other: Event)
    ensures Steps(s, [one] + [other]) == Step(Step(s, one), other)
  {
    assert ([one] + [other])[1..] == [other];
    assert [other][1..] == [] && Steps(Step(Step(s, one), other), []) == Step(Step(s, one), other);
    assert Steps(Step(s, one), [other]) == Step(Step(s, one), other);
  }

  lemma SettlesAfter(s: State, one: Event, e: Event)
    requires Inv(s) && !Step(s, one).settled && e.Close?
    ensures var end := Steps(s, [one] + [e]);
            end.settled && PastOf(end.log).settlements == (if ThrowsAtClose(Step(s, one), e) then 0 else 1)
  {
    StepKeeps(s, one);
    ResolveKeeps(Step(s, one), e);
    TwoSteps(s, one, e);
  }

  lemma HeldBytesThrow(s: State, b: Bytes, e: Event)
    requires !s.settled && s.out.callback && s.out.decoder == NOTHING
    requires Hold(b).pending != [] && e.Close? && e.stdoutThrows
    ensures !Step(s, StdoutData(b)).settled && ThrowsAtClose(Step(s, StdoutData(b)), e)
  {
    assert Step(s, StdoutData(b)).out.decoder == Hold(b);
  }

  lemma InitialHasInv(hasToken: bool, onStdout: bool, onStderr: bool)
    ensures Inv(Initial(hasToken, onStdout, onStderr))
  {}

  /** Such runs: the output stops inside a character, and the callback throws when
      it is told the rest. */
  lemma ThrowingCallbackStrands(b: Bytes, code: Option<int>)
    requires Hold(b).pending != []
    ensures var end := Run(false, true, false, [], [StdoutData(b)] + [Close(code, true, false)]);
            end.settled && PastOf(end.log).settlements == 0
  {
    var s := Initial(false, true, false);
    InitialHasInv(false, true, false);
    HeldBytesThrow(s, b, Close(code, true, false));
    SettlesAfter(s, StdoutData(b), Close(code, true, false));
  }

  /** An output that stops inside a character: its first byte of three. */
  lemma LeadByteIsHeld()
    ensures Hold([0xE2]).pending == [0xE2]
  {
    assert HeldBack([0xE2], 0) == 1 && [0xE2][0..] == [0xE2];
  }

  /** The run is over, or the child has been killed, or a timer will kill it. */
  predicate Bounded(s: State) {
    s.settled || PastOf(s.log).kills > 0 || s.timers != {}
  }

  lemma {:induction false} StaysBounded(s: State, e: Event)
    requires Inv(s) && (Bounded(s) || (e.CancelFired? && Live(s.cancelSub)))
    ensures Bounded(Step(s, e))
    decreases e
  {
    StepKeeps(s, e);
    if e.CancelFired? && Live(s.cancelSub) {
      var s1 := Log(Log(s.(cancelled := true), CancelRequested), Terminated);
      RequestKeeps(s);
      if Bounded(s) {
        StaysBoundedAll(s1, e.during);
      }
    } else if Ends(e) {
      EndingSettles(s, e);
    }
  }

  lemma {:induction false} StaysBoundedAll(s: State, events: seq<Event>)
    requires Inv(s) && Bounded(s)
    ensures Bounded(Steps(s, events))
    decreases events
  {
    if events != [] {
      StaysBounded(s, events[0]);
      StepKeeps(s, events[0]);
      StaysBoundedAll(Step(s, events[0]), events[1..]);
    }
  }

  /** From a cancellation that is heard on, whatever happens: the child has been
      asked to terminate, and the run is over, or the child has been killed, or a
      timer is set that will kill it. */
  lemma HeardCancelIsBounded(s: State, during: seq<Event>, events: seq<Event>)
    requires Inv(s) && (s.cancelSub == Subscribing || s.cancelSub == Subscribed)
    ensures var s', end := Step(s, CancelFired(during)), Steps(Step(s, CancelFired(during)), events);
            && PastOf(s'.log).cancelRequested && PastOf(s'.log).terminations > PastOf(s.log).terminations
            && (end.settled || PastOf(end.log).kills > 0 || end.timers != {})
  {
    var s1 := Log(Log(s.(cancelled := true), CancelRequested), Terminated);
    RequestKeeps(s);
    StepsKeep(s1, during);
    assert PastOf(s1.log).terminations > PastOf(s.log).terminations;
    StaysBounded(s, CancelFired(during));
    StepKeeps(s, CancelFired(during));
    StaysBoundedAll(Step(s, CancelFired(during)), events);
  }

  /** With a token, cancellations are heard while subscribing and until the run is
      settled; without one, and from then on, they are not. */
  lemma RunListens(hasToken: bool, onStdout: bool, onStderr: bool, during: seq<Event>, events: seq<Event>, more: seq<Event>)
    ensures hasToken ==> Steps(Initial(hasToken, onStdout, onStderr), during).cancelSub == Subscribing
    ensures var s := Run(hasToken, onStdout, onStderr, during, events);
            && (!s.settled ==> s.cancelSub == if hasToken then Subscribed else NoToken)
            && (s.settled || !hasToken ==> Step(s, CancelFired(more)) == s)
  {
    var s0 := Initial(hasToken, onStdout, onStderr);
    InitialHasInv(hasToken, onStdout, onStderr);
    StepsKeep(s0, during);
    SubscribeKeeps(s0, during);
    StepsKeep(Subscribe(s0, during), events);
  }

  /** The timer kills the child, unless the run has been settled. */
  lemma TimerKills(s: State, id: nat)
    requires Inv(s) && id in s.timers
    ensures PastOf(Step(s, TimerFired(id)).log).kills == PastOf(s.log).kills + if s.settled then 0 else 1
    ensures Step(s, TimerFired(id)).timers == s.timers - {id}
  {}

  /** The close clears the timer that the last cancellation has set. */
  lemma CloseClearsTimer(s: State, during: seq<Event>, e: Event)
    requires Inv(s) && !s.settled && Live(s.cancelSub) && during == [] && e.Close?
    ensures var s1 := Step(s, CancelFired(during));
            s.nextTimer !in s.timers && s1.timers == s.timers + {s.nextTimer} && Step(s1, e).timers == s.timers
  {
    OneCancel(s, during);
    CloseKeepsOtherTimers(Step(s, CancelFired(during)), e);
  }

  lemma OneCancel(s: State, during: seq<Event>)
    requires !s.settled && Live(s.cancelSub) && during == []
    ensures var s1 := Step(s, CancelFired(during));
            && !s1.settled && s1.forceKillTimer == Some(s.nextTimer) && s1.timers == s.timers + {s.nextTimer}
  {
    NoSteps(Log(Log(s.(cancelled := true), CancelRequested), Terminated), during);
  }

  lemma NoSteps(s: State, events: seq<Event>)
    requires events == []
    ensures Steps(s, events) == s
  {}

  lemma CloseKeepsOtherTimers(s: State, e: Event)
    requires !s.settled && e.Close?
    ensures Step(s, e).timers == Settle(s).timers
  {
    assert FlushStdout(Settle(s)).timers == Settle(s).timers;
    assert FlushStderr(FlushStdout(Settle(s))).timers == Settle(s).timers;
  }

  /** Data adds its bytes to the output of its stream, and nothing else adds any. */
  lemma DataArrives(s: State, e: Event)
    requires !e.StreamError? && !e.CancelFired?
    ensures var past, past' := PastOf(s.log), PastOf(Step(s, e).log);
            && past'.stdout == past.stdout + (if e.StdoutData? then e.bytes else [])
            && past'.stderr == past.stderr + (if e.StderrData? then e.bytes else [])
  {
    var past := PastOf(s.log);
    assert past.stdout + [] == past.stdout && past.stderr + [] == past.stderr;
    match e
    case StdoutData(b) => StdoutArrives(s, b);
    case StderrData(b) => StderrArrives(s, b);
    case Close(_, _, _) =>
      if !s.settled {
        CloseBringsNothing(s, e);
      }
    case _ => PartsBringNothing(s);
  }

  lemma StdoutArrives(s: State, b: Bytes)
    ensures var past, past' := PastOf(s.log), PastOf(OnStdoutData(s, b).log);
            past'.stdout == past.stdout + b && past'.stderr == past.stderr
  {}

  lemma StderrArrives(s: State, b: Bytes)
    ensures var past, past' := PastOf(s.log), PastOf(OnStderrData(s, b).log);
            past'.stdout == past.stdout && past'.stderr == past.stderr + b
  {}

  lemma PartsBringNothing(s: State)
    ensures !s.settled ==> PastOf(Settle(s).log).stdout == PastOf(s.log).stdout && PastOf(Settle(s).log).stderr == PastOf(s.log).stderr
    ensures PastOf(FlushStdout(s).log).stdout == PastOf(s.log).stdout == PastOf(FlushStderr(s).log).stdout
    ensures PastOf(FlushStdout(s).log).stderr == PastOf(s.log).stderr == PastOf(FlushStderr(s).log).stderr
  {}

  lemma CloseBringsNothing(s: State, e: Event)
    requires e.Close? && !s.settled
    ensures PastOf(Step(s, e).log).stdout == PastOf(s.log).stdout && PastOf(Step(s, e).log).stderr == PastOf(s.log).stderr
  {
    PartsBringNothing(s);
    PartsBringNothing(Settle(s));
    PartsBringNothing(FlushStdout(Settle(s)));
  }

  // -------------------------------------------------------- the source's form

  class CliRun {
    var settled: bool
    var cancelled: bool
    var cancelSub: Subscription
    var forceKillTimer: Option<nat>
    var timers: set<nat>
    var nextTimer: nat
    var stdoutChunks: seq<Bytes>
    var stderrChunks: seq<Bytes>
    var stdoutStreamDecoder: Held
    var stderrStreamDecoder: Held
    const onStdout: bool
    const onStderr: bool
    ghost var log: History

    ghost function Now(): State
      reads this
    {
      State(settled, cancelled, cancelSub, forceKillTimer, timers, nextTimer,
            Channel(stdoutChunks, stdoutStreamDecoder, onStdout),
            Channel(stderrChunks, stderrStreamDecoder, onStderr), log)
    }

    constructor (hasToken: bool, onStdout: bool, onStderr: bool)
      ensures Now() == Initial(hasToken, onStdout, onStderr)
    {
      settled, cancelled := false, false;
      cancelSub := if hasToken then Subscribing else NoToken;
      forceKillTimer, timers, nextTimer := None, {}, 0;
      stdoutChunks, stderrChunks := [], [];
      stdoutStreamDecoder, stderrStreamDecoder := NOTHING, NOTHING;
      this.onStdout, this.onStderr := onStdout, onStderr;
      log := Beginning;
    }

    method OnStdout(b: Bytes)
      modifies this
      ensures Now() == Step(old(Now()), StdoutData(b))
    {
      stdoutChunks := stdoutChunks + [b];
      log := After(log, GotStdout(b));
      if onStdout {
        var (text, held) := Write(stdoutStreamDecoder, b);
        stdoutStreamDecoder := held;
        if text != [] {
          log := After(log, ToldStdout(text));
        }
      }
    }

    method OnStderr(b: Bytes)
      modifies this
      ensures Now() == Step(old(Now()), StderrData(b))
    {
      stderrChunks := stderrChunks + [b];
      log := After(log, GotStderr(b));
      if onStderr {
        var (text, held) := Write(stderrStreamDecoder, b);
        stderrStreamDecoder := held;
        if text != [] {
          log := After(log, ToldStderr(text));
        }
      }
    }

    /** `finish`, whose argument the caller goes on with when it returns true. */
    method Finish() returns (go: bool)
      modifies this
      ensures go == !old(settled)
      ensures Now() == if go then Settle(old(Now())) else old(Now())
    {
      if settled { return false; }
      settled := true;
      if forceKillTimer.Some? {
        timers := timers - {forceKillTimer.value};
      }
      if cancelSub == Subscribed {
        cancelSub := Disposed;
        log := After(log, SubscriptionDisposed);
      }
      go := true;
    }

    /** The end of the streaming decoder of stdout; false when the callback throws. */
    method EndStdout(throws: bool) returns (go: bool)
      modifies this
      ensures go == !(throws && Tail(old(Now()).out) != [])
      ensures Now() == if go then FlushStdout(old(Now())) else Log(FlushStdout(old(Now())), Threw)
    {
      go := true;
      if onStdout {
        var tail := Flush(stdoutStreamDecoder);
        stdoutStreamDecoder := NOTHING;
        if tail != [] {
          log := After(log, ToldStdout(tail));
          if throws {
            log := After(log, Threw);
            go := false;
          }
        }
      }
    }

    method EndStderr(throws: bool) returns (go: bool)
      modifies this
      ensures go == !(throws && Tail(old(Now()).err) != [])
      ensures Now() == if go then FlushStderr(old(Now())) else Log(FlushStderr(old(Now())), Threw)
    {
      go := true;
      if onStderr {
        var tail := Flush(stderrStreamDecoder);
        stderrStreamDecoder := NOTHING;
        if tail != [] {
          log := After(log, ToldStderr(tail));
          if throws {
            log := After(log, Threw);
            go := false;
          }
        }
      }
    }

    /** `settleResult` */
    method OnClose(code: Option<int>, stdoutThrows: bool, stderrThrows: bool)
      modifies this
      ensures Now() == Step(old(Now()), Close(code, stdoutThrows, stderrThrows))
    {
      var go := Finish();
      if go {
        go := EndStdout(stdoutThrows);
        if go {
          go := EndStderr(stderrThrows);
          if go {
            var result := RunResult(Decode(Concat(stdoutChunks)), Decode(Concat(stderrChunks)), code, cancelled);
            log := After(log, Resolved(result));
          }
        }
      }
    }

    method OnSpawnError()
      modifies this
      ensures Now() == Step(old(Now()), SpawnError)
    {
      var go := Finish();
      if go {
        log := After(log, Rejected);
      }
    }

    method RejectFromStreamError(during: seq<Event>)
      modifies this
      ensures Now() == Step(old(Now()), StreamError(during))
      decreases during, 1
    {
      var go := Finish();
      if go {
        log := After(log, Terminated);
        DispatchAll(during);
        log := After(log, Rejected);
      }
    }

    method RequestCancel(during: seq<Event>)
      requires Live(cancelSub)
      modifies this
      ensures Now() == Step(old(Now()), CancelFired(during))
      decreases during, 1
    {
      cancelled := true;
      log := After(After(log, CancelRequested), Terminated);
      DispatchAll(during);
      if !settled {
        forceKillTimer := Some(nextTimer);
        timers := timers + {nextTimer};
        nextTimer := nextTimer + 1;
      }
    }

    method OnTimer(id: nat)
      requires id in timers
      modifies this
      ensures Now() == Step(old(Now()), TimerFired(id))
    {
      timers := timers - {id};
      if !settled {
        log := After(log, ForceTerminated);
      }
    }

    /** The event loop: a disposed listener and a cleared timer stay silent. */
    method Dispatch(e: Event)
      modifies this
      ensures Now() == Step(old(Now()), e)
      decreases e, 2
    {
      match e
      case StdoutData(b) => OnStdout(b);
      case StderrData(b) => OnStderr(b);
      case StreamError(during) => RejectFromStreamError(during);
      case SpawnError => OnSpawnError();
      case Close(code, stdoutThrows, stderrThrows) => OnClose(code, stdoutThrows, stderrThrows);
      case CancelFired(during) =>
        if Live(cancelSub) {
          RequestCancel(during);
        }
      case TimerFired(id) =>
        if id in timers {
          OnTimer(id);
        }
    }

    method DispatchAll(events: seq<Event>)
      modifies this
      ensures Now() == Steps(old(Now()), events)
      decreases events, 0
    {
      ghost var start := Now();
      for i := 0 to |events|
        invariant Steps(Now(), events[i..]) == Steps(start, events)
      {
        assert events[i..][1..] == events[i + 1..];
        Dispatch(events[i]);
      }
    }

    method SubscribeToToken(during: seq<Event>)
      requires cancelSub == Subscribing
      modifies this
      ensures Now() == Subscribe(old(Now()), during)
    {
      DispatchAll(during);
      cancelSub := Subscribed;
      if settled {
        cancelSub := Disposed;
        log := After(log, SubscriptionDisposed);
      }
    }
  }
}
