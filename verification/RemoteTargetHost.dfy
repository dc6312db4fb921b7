/** The paused state of the selected bundle target
    (packages/databricks-vscode/src/bundle/RemoteTargetHostManager.ts): its
    evaluations overlap, and each reads its inputs again after its await. */
module RemoteTargetHost {
  import opened Wrappers

  /** A URL; its text determines it, so comparing texts compares URLs. */
  datatype Url = Url(scheme: string, hostname: string, tail: string)

  datatype Reason =
    | HostMismatch | Profile | Variable | MultiFile | InvalidHost | AbsentTarget | GlobClass | Unreadable

  datatype Paused = Paused(target: string, reason: Reason, envHost: string, targetHost: Option<string>)

  /** What the credential guard reads for a target. */
  datatype Resolution = Session | Host(host: Url) | Unresolved(reason: Reason)

  /** The two inputs of an evaluation. */
  datatype Inputs = Inputs(target: Option<string>, host: Option<Url>)

  /** What an evaluation publishes once it knows the resolution. */
  function Verdict(target: string, envHost: Url, resolution: Resolution): Option<Paused> {
    match resolution
    case Session => None
    case Host(host) =>
      if host.hostname == envHost.hostname then None
      else Some(Paused(target, HostMismatch, envHost.hostname, Some(host.hostname)))
    case Unresolved(reason) => Some(Paused(target, reason, envHost.hostname, None))
  }

  // ------------------------------------------------------------- the manager

  /** The object itself. Its evaluation is cut at the await: `Begin` is what runs
      before it, `Resume` what runs after, `Fail` the handler of a rejection. */
  class RemoteTargetHostManager {
    var paused: Option<Paused>
    /** How often the change event has fired. */
    var fired: nat

    constructor ()
      ensures paused == None && fired == 0
    {
      paused, fired := None, 0;
    }

    method SetPaused(next: Option<Paused>)
      modifies this
      ensures paused == next
      ensures fired == old(fired) + if old(paused) == next then 0 else 1
    {
      if paused == next {
        return;
      }
      paused := next;
      fired := fired + 1;
    }

    /** Whether the evaluation goes on to read the target's host. */
    method Begin(inputs: Inputs) returns (waits: bool)
      modifies this
      ensures waits <==> inputs.target.Some? && inputs.host.Some?
      ensures paused == if waits then old(paused) else None
      ensures fired == old(fired) + if old(paused) == paused then 0 else 1
    {
      if inputs.host.None? || inputs.target.None? {
        SetPaused(None);
        return false;
      }
      return true;
    }

    method Resume(target: string, envHost: Url, resolution: Resolution, now: Inputs)
      modifies this
      ensures paused == if now == Inputs(Some(target), Some(envHost)) then Verdict(target, envHost, resolution)
                        else old(paused)
      ensures fired == old(fired) + if old(paused) == paused then 0 else 1
    {
      if now.target != Some(target) || now.host != Some(envHost) {
        return;
      }
      if resolution.Session? {
        SetPaused(None);
        return;
      }
      if resolution.Host? {
        if resolution.host.hostname == envHost.hostname {
          SetPaused(None);
          return;
        }
        SetPaused(Some(Paused(target, HostMismatch, envHost.hostname, Some(resolution.host.hostname))));
        return;
      }
      SetPaused(Some(Paused(target, resolution.reason, envHost.hostname, None)));
    }

    method Fail()
      modifies this
      ensures paused == None
      ensures fired == old(fired) + if old(paused) == paused then 0 else 1
    {
      SetPaused(None);
    }
  }

  // ------------------------------------------------------------ all schedules

  /** An evaluation at its await; `read` is set once it has read the files. */
  datatype Evaluation = Evaluation(target: string, host: Url, read: Option<Resolution>)

  /** `disk` is what the guard would read now for each target; `owed` counts the
      changes whose event has not fired yet. */
  datatype State = State(
    inputs: Inputs, disk: map<string, Resolution>, paused: Option<Paused>, inFlight: seq<Evaluation>, owed: nat)

  datatype Event =
    | ChangeInputs(inputs: Inputs)
    | ChangeFiles(disk: map<string, Resolution>)
    | Announce            // the event of an earlier change fires
    | Nudge               // one of the four events fires without a change
    | Read(index: nat)
    | Complete(index: nat)
    | Reject(index: nat)

  function Initial(inputs: Inputs, disk: map<string, Resolution>): State {
    State(inputs, disk, None, [], 0)
  }

  function Lookup(disk: map<string, Resolution>, target: string): Resolution {
    if target in disk then disk[target] else Unresolved(AbsentTarget)
  }

  function Without(evaluations: seq<Evaluation>, i: nat): seq<Evaluation>
    requires i < |evaluations|
  {
    evaluations[..i] + evaluations[i + 1..]
  }

  predicate Allowed(s: State, e: Event) {
    match e
    case Announce => s.owed > 0
    case Read(i) => i < |s.inFlight| && s.inFlight[i].read.None?
    case Complete(i) => i < |s.inFlight| && s.inFlight[i].read.Some?
    case Reject(i) => i < |s.inFlight|
    case _ => true
  }

  /** The part of an evaluation before its await. */
  function Started(s: State): State {
    if s.inputs.target.None? || s.inputs.host.None? then s.(paused := None)
    else s.(inFlight := s.inFlight + [Evaluation(s.inputs.target.value, s.inputs.host.value, None)])
  }

  predicate IsCurrent(e: Evaluation, inputs: Inputs) {
    inputs == Inputs(Some(e.target), Some(e.host))
  }

  /** The part of an evaluation after its await. */
  function Resumed(s: State, e: Evaluation): Option<Paused>
    requires e.read.Some?
  {
    if IsCurrent(e, s.inputs) then Verdict(e.target, e.host, e.read.value) else s.paused
  }

  function Step(s: State, e: Event): State
    requires Allowed(s, e)
  {
    match e
    case ChangeInputs(inputs) => s.(inputs := inputs, owed := s.owed + 1)
    case ChangeFiles(disk) => s.(disk := disk, owed := s.owed + 1)
    case Announce => Started(s.(owed := s.owed - 1))
    case Nudge => Started(s)
    case Read(i) =>
      s.(inFlight := s.inFlight[i := s.inFlight[i].(read := Some(Lookup(s.disk, s.inFlight[i].target)))])
    case Complete(i) => s.(paused := Resumed(s, s.inFlight[i]), inFlight := Without(s.inFlight, i))
    case Reject(i) => s.(paused := None, inFlight := Without(s.inFlight, i))
  }

  ghost predicate Happens(s: State, events: seq<Event>)
    decreases |events|
  {
    events == [] || (Allowed(s, events[0]) && Happens(Step(s, events[0]), events[1..]))
  }

  ghost function Run(s: State, events: seq<Event>): State
    requires Happens(s, events)
    decreases |events|
  {
    if events == [] then s else Run(Step(s, events[0]), events[1..])
  }

  /** One call of the class makes the same change as one step. */
  method Deliver(m: RemoteTargetHostManager, s: State, e: Event)
    requires Allowed(s, e) && m.paused == s.paused
    modifies m
    ensures m.paused == Step(s, e).paused
    ensures m.fired == old(m.fired) + if s.paused == m.paused then 0 else 1
  {
    match e
    case Announce =>
      var _ := m.Begin(s.inputs);
    case Nudge =>
      var _ := m.Begin(s.inputs);
    case Complete(i) =>
      var evaluation := s.inFlight[i];
      m.Resume(evaluation.target, evaluation.host, evaluation.read.value, s.inputs);
    case Reject(_) =>
      m.Fail();
    case _ =>
  }

  // --------------------------------------------- a paused state is never stale

  predicate Names(paused: Option<Paused>, inputs: Inputs) {
    paused.Some? ==>
      inputs.host.Some? && Some(paused.value.target) == inputs.target &&
      paused.value.envHost == inputs.host.value.hostname
  }

  predicate HasCurrent(evaluations: seq<Evaluation>, inputs: Inputs) {
    exists i | 0 <= i < |evaluations| :: IsCurrent(evaluations[i], inputs)
  }

  /** The published state names the current inputs, or something is under way
      that will put it right. */
  predicate Tracked(s: State) {
    Names(s.paused, s.inputs) || HasCurrent(s.inFlight, s.inputs) || s.owed > 0
  }

  lemma WithoutKeepsCurrent(evaluations: seq<Evaluation>, i: nat, inputs: Inputs)
    requires i < |evaluations| && !IsCurrent(evaluations[i], inputs)
    ensures HasCurrent(Without(evaluations, i), inputs) <==> HasCurrent(evaluations, inputs)
  {
    var rest := Without(evaluations, i);
    if HasCurrent(evaluations, inputs) {
      var k :| 0 <= k < |evaluations| && IsCurrent(evaluations[k], inputs);
      assert IsCurrent(rest[if k < i then k else k - 1], inputs);
    }
    if HasCurrent(rest, inputs) {
      var k :| 0 <= k < |rest| && IsCurrent(rest[k], inputs);
      assert IsCurrent(evaluations[if k < i then k else k + 1], inputs);
    }
  }

  lemma ReadKeepsCurrent(evaluations: seq<Evaluation>, i: nat, read: Resolution, inputs: Inputs)
    requires i < |evaluations|
    ensures HasCurrent(evaluations[i := evaluations[i].(read := Some(read))], inputs) <==>
            HasCurrent(evaluations, inputs)
  {
    var after := evaluations[i := evaluations[i].(read := Some(read))];
    assert forall k | 0 <= k < |after| :: IsCurrent(after[k], inputs) <==> IsCurrent(evaluations[k], inputs);
  }

  lemma StepKeepsTracked(s: State, e: Event)
    requires Allowed(s, e) && Tracked(s)
    ensures Tracked(Step(s, e))
  {
    var after := Step(s, e);
    match e
    case Announce =>
      StartedIsTracked(s.(owed := s.owed - 1));
    case Nudge =>
      StartedIsTracked(s);
    case Read(i) =>
      ReadKeepsCurrent(s.inFlight, i, Lookup(s.disk, s.inFlight[i].target), s.inputs);
    case Complete(i) =>
      if !IsCurrent(s.inFlight[i], s.inputs) {
        WithoutKeepsCurrent(s.inFlight, i, s.inputs);
      }
    case _ =>
  }

  lemma StartedIsTracked(s: State)
    ensures Tracked(Started(s))
  {
    var after := Started(s);
    if s.inputs.target.Some? && s.inputs.host.Some? {
      assert IsCurrent(after.inFlight[|s.inFlight|], s.inputs);
    }
  }

  /** In every run, at every moment at which all change events have fired and no
      evaluation is under way, a published state names the current target and
      the current pinned host. */
  lemma {:induction false} SettledStateNamesInputs(s: State, events: seq<Event>)
    requires Tracked(s) && Happens(s, events)
    ensures Tracked(Run(s, events))
    ensures var end := Run(s, events); end.inFlight == [] && end.owed == 0 ==> Names(end.paused, end.inputs)
    decreases |events|
  {
    if events != [] {
      StepKeepsTracked(s, events[0]);
      SettledStateNamesInputs(Step(s, events[0]), events[1..]);
    }
  }

  lemma InitialIsTracked(inputs: Inputs, disk: map<string, Resolution>)
    ensures Tracked(Initial(inputs, disk))
  {}

  // ----------------------------------------------- agreement with the guard

  /** What the credential guard would decide now. */
  function Guard(s: State): Option<Paused> {
    if s.inputs.target.None? || s.inputs.host.None? then None
    else Verdict(s.inputs.target.value, s.inputs.host.value, Lookup(s.disk, s.inputs.target.value))
  }

  predicate IsSettling(e: Event) {
    e.Read? || e.Complete?
  }

  /** The evaluations under way all finish, in some order, and nothing else
      happens. */
  ghost predicate Settles(s: State, events: seq<Event>) {
    Happens(s, events) && (forall i | 0 <= i < |events| :: IsSettling(events[i])) && Run(s, events).inFlight == []
  }

  ghost predicate AlwaysAgrees(s: State) {
    forall events | Settles(s, events) :: Run(s, events).paused == Guard(s)
  }

  predicate IsOutdated(e: Evaluation, s: State) {
    IsCurrent(e, s.inputs) && e.read.Some? && Verdict(e.target, e.host, e.read.value) != Guard(s)
  }

  predicate NoneOutdated(s: State) {
    forall i | 0 <= i < |s.inFlight| :: !IsOutdated(s.inFlight[i], s)
  }

  /** Read off the state: no evaluation with the current inputs holds a reading
      that the files have since belied, and one of them is still to publish
      unless the published state is right already. */
  predicate WillAgree(s: State) {
    NoneOutdated(s) && (s.paused == Guard(s) || HasCurrent(s.inFlight, s.inputs))
  }

  lemma SettlingKeepsWillAgree(s: State, e: Event)
    requires Allowed(s, e) && IsSettling(e) && WillAgree(s)
    ensures WillAgree(Step(s, e)) && Guard(Step(s, e)) == Guard(s)
  {
    var after := Step(s, e);
    if e.Read? {
      ReadKeepsCurrent(s.inFlight, e.index, Lookup(s.disk, s.inFlight[e.index].target), s.inputs);
      assert forall k | 0 <= k < |after.inFlight| && k != e.index :: after.inFlight[k] == s.inFlight[k];
    } else {
      var i := e.index;
      assert forall k | 0 <= k < |after.inFlight| :: after.inFlight[k] == s.inFlight[if k < i then k else k + 1];
      if !IsCurrent(s.inFlight[i], s.inputs) {
        WithoutKeepsCurrent(s.inFlight, i, s.inputs);
      } else {
        assert !IsOutdated(s.inFlight[i], s);
      }
    }
  }

  lemma {:induction false} EveryOrderAgrees(s: State, events: seq<Event>)
    requires WillAgree(s) && Settles(s, events)
    ensures Run(s, events).paused == Guard(s)
    decreases |events|
  {
    if events != [] {
      var e := events[0];
      assert IsSettling(e);
      SettlingKeepsWillAgree(s, e);
      assert forall i | 0 <= i < |events[1..]| :: events[1..][i] == events[i + 1];
      EveryOrderAgrees(Step(s, e), events[1..]);
    }
  }

  lemma PrependEvent(s: State, e: Event, events: seq<Event>)
    requires Allowed(s, e) && IsSettling(e) && Settles(Step(s, e), events)
    ensures Settles(s, [e] + events) && Run(s, [e] + events) == Run(Step(s, e), events)
  {
    assert ([e] + events)[1..] == events;
  }

  /** An evaluation that is not the given one finishes. */
  lemma FinishAt(s: State, i: nat) returns (steps: seq<Event>, after: State)
    requires i < |s.inFlight|
    ensures after.inFlight == Without(s.inFlight, i)
    ensures after.inputs == s.inputs && after.disk == s.disk
    ensures !IsCurrent(s.inFlight[i], s.inputs) ==> after.paused == s.paused
    ensures forall events | Settles(after, events) ::
              Settles(s, steps + events) && Run(s, steps + events) == Run(after, events)
  {
    if s.inFlight[i].read.Some? {
      steps, after := [Complete(i)], Step(s, Complete(i));
      forall events | Settles(after, events)
        ensures Settles(s, steps + events) && Run(s, steps + events) == Run(after, events)
      {
        PrependEvent(s, Complete(i), events);
      }
    } else {
      var middle := Step(s, Read(i));
      assert Allowed(middle, Complete(i));
      steps, after := [Read(i)] + [Complete(i)], Step(middle, Complete(i));
      assert Without(middle.inFlight, i) == Without(s.inFlight, i);
      forall events | Settles(after, events)
        ensures Settles(s, steps + events) && Run(s, steps + events) == Run(after, events)
      {
        PrependEvent(middle, Complete(i), events);
        PrependEvent(s, Read(i), [Complete(i)] + events);
        Concatenation([Read(i)], [Complete(i)], events);
      }
    }
  }

  /** Outside the evaluations of the current inputs, nothing is published. */
  lemma {:induction false} SettleStale(s: State) returns (events: seq<Event>)
    requires !HasCurrent(s.inFlight, s.inputs)
    ensures Settles(s, events) && Run(s, events).paused == s.paused
    decreases |s.inFlight|
  {
    if s.inFlight == [] {
      events := [];
    } else {
      assert !IsCurrent(s.inFlight[0], s.inputs);
      WithoutKeepsCurrent(s.inFlight, 0, s.inputs);
      var steps, after := FinishAt(s, 0);
      var rest := SettleStale(after);
      events := steps + rest;
    }
  }

  /** The evaluation that holds an outdated reading can be the last to finish. */
  lemma {:induction false} SettleOutdatedLast(s: State, i: nat) returns (events: seq<Event>)
    requires i < |s.inFlight| && IsOutdated(s.inFlight[i], s)
    ensures Settles(s, events) && Run(s, events).paused != Guard(s)
    decreases |s.inFlight|
  {
    if |s.inFlight| == 1 {
      PrependEvent(s, Complete(0), []);
      events := [Complete(0)] + [];
    } else {
      var k, j := if i == 0 then 1 else 0, if i == 0 then 0 else i - 1;
      assert Without(s.inFlight, k)[j] == s.inFlight[i];
      var steps, after := FinishAt(s, k);
      assert Guard(after) == Guard(s);
      var rest := SettleOutdatedLast(after, j);
      events := steps + rest;
    }
  }

  /** Whatever the order in which the evaluations under way finish, the published
      state ends up being what the guard decides, exactly when none of them
      holds an outdated reading of the current inputs. */
  lemma AgreesIffNoneOutdated(s: State)
    ensures AlwaysAgrees(s) <==> WillAgree(s)
  {
    if WillAgree(s) {
      forall events | Settles(s, events)
        ensures Run(s, events).paused == Guard(s)
      {
        EveryOrderAgrees(s, events);
      }
    } else if !NoneOutdated(s) {
      var i :| 0 <= i < |s.inFlight| && IsOutdated(s.inFlight[i], s);
      var events := SettleOutdatedLast(s, i);
    } else {
      var events := SettleStale(s);
    }
  }

  /** What that state is. Nothing is paused without a target and a pinned host, nor
      when the target uses the session's host or one of the same name; a target on
      another host is paused for the mismatch, and one whose host cannot be
      resolved for the reason given. */
  lemma SettledStateIs(s: State, events: seq<Event>, target: string, pinned: Url)
    requires WillAgree(s) && Settles(s, events)
    ensures s.inputs.target == None || s.inputs.host == None ==> Run(s, events).paused == None
    ensures s.inputs == Inputs(Some(target), Some(pinned)) && target in s.disk ==>
      match s.disk[target]
      case Session => Run(s, events).paused == None
      case Host(host) =>
        && (Run(s, events).paused == None <==> host.hostname == pinned.hostname)
        && (host.hostname != pinned.hostname ==>
              Run(s, events).paused == Some(Paused(target, HostMismatch, pinned.hostname, Some(host.hostname))))
      case Unresolved(reason) => Run(s, events).paused == Some(Paused(target, reason, pinned.hostname, None))
    ensures s.inputs == Inputs(Some(target), Some(pinned)) && target !in s.disk ==>
              Run(s, events).paused == Some(Paused(target, AbsentTarget, pinned.hostname, None))
  {
    EveryOrderAgrees(s, events);
  }

  lemma {:induction false} NothingElseChangesInputs(s: State, events: seq<Event>)
    requires Happens(s, events)
    ensures (forall i | 0 <= i < |events| :: !events[i].ChangeInputs?) ==> Run(s, events).inputs == s.inputs
    ensures (forall i | 0 <= i < |events| :: !events[i].ChangeFiles?) ==> Run(s, events).disk == s.disk
    decreases |events|
  {
    if events != [] {
      assert forall i | 0 <= i < |events[1..]| :: events[1..][i] == events[i + 1];
      NothingElseChangesInputs(Step(s, events[0]), events[1..]);
    }
  }

  /** The inputs and the files are those of the last change. */
  lemma {:induction false} LastChangeCounts(s: State, events: seq<Event>, k: nat)
    requires Happens(s, events) && k < |events|
    ensures events[k].ChangeInputs? && (forall i | k < i < |events| :: !events[i].ChangeInputs?) ==>
              Run(s, events).inputs == events[k].inputs
    ensures events[k].ChangeFiles? && (forall i | k < i < |events| :: !events[i].ChangeFiles?) ==>
              Run(s, events).disk == events[k].disk
    decreases |events|
  {
    assert forall i | 0 <= i < |events[1..]| :: events[1..][i] == events[i + 1];
    if k > 0 {
      LastChangeCounts(Step(s, events[0]), events[1..], k - 1);
    } else {
      NothingElseChangesInputs(Step(s, events[0]), events[1..]);
    }
  }

  /** An evaluation that starts at rest and is not disturbed is such a run. */
  lemma EvaluationAgrees(s: State)
    requires s.inFlight == [] && s.owed == 0
    ensures WillAgree(Step(s, Nudge))
  {
    if s.inputs.target.Some? && s.inputs.host.Some? {
      assert IsCurrent(Step(s, Nudge).inFlight[0], s.inputs);
    }
  }

  // ------------------------------------------------------- failures included

  predicate IsEnding(e: Event) {
    IsSettling(e) || e.Reject?
  }

  /** The evaluations under way all finish or fail, and nothing else happens. */
  ghost predicate Ends(s: State, events: seq<Event>) {
    Happens(s, events) && (forall i | 0 <= i < |events| :: IsEnding(events[i])) && Run(s, events).inFlight == []
  }

  ghost predicate AgreesDespiteFailures(s: State) {
    forall events | Ends(s, events) :: Run(s, events).paused == Guard(s)
  }

  /** A failure clears the published state, so it is harmless only when the guard
      has nothing to say (or nothing is under way). */
  predicate WillAgreeAnyway(s: State) {
    WillAgree(s) && (s.inFlight == [] || Guard(s) == None)
  }

  lemma EndingKeepsWillAgree(s: State, e: Event)
    requires Allowed(s, e) && IsEnding(e) && WillAgreeAnyway(s)
    ensures WillAgreeAnyway(Step(s, e)) && Guard(Step(s, e)) == Guard(s)
  {
    if e.Reject? {
      var after, i := Step(s, e), e.index;
      assert forall k | 0 <= k < |after.inFlight| :: after.inFlight[k] == s.inFlight[if k < i then k else k + 1];
    } else {
      SettlingKeepsWillAgree(s, e);
    }
  }

  lemma {:induction false} EveryEndAgrees(s: State, events: seq<Event>)
    requires WillAgreeAnyway(s) && Ends(s, events)
    ensures Run(s, events).paused == Guard(s)
    decreases |events|
  {
    if events != [] {
      var e := events[0];
      assert IsEnding(e);
      EndingKeepsWillAgree(s, e);
      assert forall i | 0 <= i < |events[1..]| :: events[1..][i] == events[i + 1];
      EveryEndAgrees(Step(s, e), events[1..]);
    }
  }

  lemma {:induction false} RejectAll(s: State) returns (events: seq<Event>)
    requires s.inFlight != []
    ensures Ends(s, events) && Run(s, events).paused == None
    decreases |s.inFlight|
  {
    var after := Step(s, Reject(0));
    var rest: seq<Event> := [];
    if after.inFlight != [] {
      rest := RejectAll(after);
    }
    events := [Reject(0)] + rest;
    RunOne(s, Reject(0), rest);
  }

  /** With failures too, every end agrees with the guard exactly when every end
      without them does and a failure could only clear what is to be cleared. */
  lemma AgreesDespiteFailuresIff(s: State)
    ensures AgreesDespiteFailures(s) <==> WillAgreeAnyway(s)
  {
    if WillAgreeAnyway(s) {
      forall events | Ends(s, events)
        ensures Run(s, events).paused == Guard(s)
      {
        EveryEndAgrees(s, events);
      }
    } else if !WillAgree(s) {
      AgreesIffNoneOutdated(s);
      var events :| Settles(s, events) && Run(s, events).paused != Guard(s);
      assert Ends(s, events);
    } else {
      var events := RejectAll(s);
    }
  }

  /** Such an evaluation is reached by editing a file after it has read the disk:
      every event has fired, and the badge can end up against the guard. */
  lemma EditCanLeaveOutdatedReading(target: string, host: Url, reason: Reason)
    ensures
      var s := Initial(Inputs(Some(target), Some(host)), map[target := Unresolved(reason)]);
      var events := [Nudge] + ([Read(0)] + ([ChangeFiles(map[target := Session])] + ([Announce] + [])));
      Happens(s, events) && Run(s, events).owed == 0 && !AlwaysAgrees(Run(s, events))
  {
    var s := Initial(Inputs(Some(target), Some(host)), map[target := Unresolved(reason)]);
    var edit := ChangeFiles(map[target := Session]);
    var s1 := Step(s, Nudge);
    var s2 := Step(s1, Read(0));
    var s3 := Step(s2, edit);
    var s4 := Step(s3, Announce);
    RunOne(s3, Announce, []);
    RunOne(s2, edit, [Announce] + []);
    RunOne(s1, Read(0), [edit] + ([Announce] + []));
    RunOne(s, Nudge, [Read(0)] + ([edit] + ([Announce] + [])));
    assert IsOutdated(s4.inFlight[0], s4);
    AgreesIffNoneOutdated(s4);
  }

  lemma RunOne(s: State, e: Event, events: seq<Event>)
    requires Allowed(s, e) && Happens(Step(s, e), events)
    ensures Happens(s, [e] + events) && Run(s, [e] + events) == Run(Step(s, e), events)
  {
    assert ([e] + events)[1..] == events;
  }
}
