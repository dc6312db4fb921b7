/** The AI tools manager (packages/databricks-vscode/src/aitools/AiToolsManager.ts
    and AiToolsModel.ts): operations that run one at a time under a mutex
    (packages/databricks-vscode/src/locking/Mutex.ts), whose file reads, storage
    writes and CLI calls may each fail. */
module AiTools {
  import opened Wrappers

  datatype Scope = Project | Global

  datatype UpdateStatus = Unknown | Checking | Updating | UpToDate | UpdateAvailable | Error

  datatype Model = Model(location: Option<Scope>, status: UpdateStatus, version: Option<string>, detectError: bool)

  /** The model, the persisted location and the "installed" context key.
      `checked` is no part of the source's state: it records which scope the last
      successful update check was about. */
  datatype World = World(model: Model, stored: Option<Scope>, installedKey: bool, checked: Option<Scope>) {

    function Refreshed(): World {
      this.(installedKey := model.location.Some?)
    }

    function WithStatus(status: UpdateStatus): World {
      this.(model := model.(status := status))
    }
  }

  /** The constructor of the manager. */
  function Initial(stored: Option<Scope>): World {
    World(Model(stored, Unknown, None, false), stored, stored.Some?, None)
  }

  // ------------------------------------------------- what the calls may answer

  datatype FileCheck = Present | Absent | ReadFailed

  /** `writes` says whether the storage accepts the new location; when it does
      not, it keeps the old one. */
  datatype Detection = Detection(hasFolder: bool, project: FileCheck, home: FileCheck, writes: bool)

  datatype Skill = Skill(installed: map<Scope, string>, latest: string)

  datatype Listing = Listing(release: string, skills: seq<Skill>)

  /** The answers one operation gets; `listing` is `None` when the call fails. */
  datatype Script = Script(cliSucceeds: bool, detection: Detection, listing: Option<Listing>)

  datatype Op =
    | DetectInstall
    | ResolveInstalled
    | Install(agents: seq<string>, inCursor: bool)
    | InstallAgent
    | Uninstall
    | Update

  datatype Task = Task(op: Op, script: Script)

  // --------------------------------------------------- an operation as a whole

  datatype Outcome = Outcome(world: World, rejected: bool)

  datatype Found = Failed | At(location: Option<Scope>)

  /** The project's state file is looked at first. */
  function Find(d: Detection): Found {
    if d.hasFolder && d.project == ReadFailed then Failed
    else if d.hasFolder && d.project == Present then At(Some(Project))
    else Home(d)
  }

  function Home(d: Detection): Found {
    match d.home
    case ReadFailed => Failed
    case Present => At(Some(Global))
    case Absent => At(None)
  }

  function DetectionFailed(w: World): World {
    w.(model := w.model.(detectError := true)).Refreshed()
  }

  function Settled(w: World, location: Option<Scope>): World {
    var m := w.model.(location := location, detectError := false);
    w.(stored := location, model := if location == None then m.(status := Unknown, version := None) else m)
    .Refreshed()
  }

  predicate IsOutdated(skill: Skill, scope: Scope) {
    scope in skill.installed && skill.installed[scope] != "" && skill.installed[scope] != skill.latest
  }

  function ComputeUpdateStatus(skills: seq<Skill>, scope: Scope): UpdateStatus {
    if exists i | 0 <= i < |skills| :: IsOutdated(skills[i], scope) then UpdateAvailable else UpToDate
  }

  function Listed(w: World, scope: Scope, listing: Listing): World {
    w.(model := w.model.(version := Some(listing.release), status := ComputeUpdateStatus(listing.skills, scope)),
       checked := Some(scope))
  }

  function Resolved(w: World, listing: Option<Listing>): World {
    match w.model.location
    case None => w.WithStatus(Unknown)
    case Some(scope) => if listing.None? then w.WithStatus(Error) else Listed(w, scope, listing.value)
  }

  /** A detection, and the update check after it where the operation has one. A
      failed write leaves the `finally` block before the update check. */
  function Reconciled(w: World, task: Task, failed: bool): Outcome {
    match Find(task.script.detection)
    case Failed => Checked(DetectionFailed(w), task, failed)
    case At(location) =>
      if task.script.detection.writes then Checked(Settled(w, location), task, failed) else Outcome(w, true)
  }

  function Checked(w: World, task: Task, failed: bool): Outcome {
    Outcome(if task.op.Install? then Resolved(w, task.script.listing) else w, failed)
  }

  const CURSOR_AGENT_ID := "cursor"

  function WithoutCursor(agents: seq<string>): seq<string> {
    if agents == [] then []
    else (if agents[0] == CURSOR_AGENT_ID then [] else [agents[0]]) + WithoutCursor(agents[1..])
  }

  /** The agents to pass to the CLI; none when it is not to be called. */
  function CliAgents(agents: seq<string>, inCursor: bool): seq<string> {
    if inCursor then WithoutCursor(agents) else agents
  }

  function Perform(w: World, task: Task): Outcome {
    var failed := !task.script.cliSucceeds;
    match task.op
    case DetectInstall => Reconciled(w, task, false)
    case ResolveInstalled => Outcome(Resolved(w, task.script.listing), false)
    case Install(agents, inCursor) =>
      if CliAgents(agents, inCursor) == [] then Outcome(w, false) else Reconciled(w, task, failed)
    case InstallAgent =>
      if w.model.location.None? then Outcome(w, false) else Outcome(Resolved(w, task.script.listing), failed)
    case Uninstall =>
      if w.model.location.None? then Outcome(w, false) else Reconciled(w, task, failed)
    case Update =>
      if w.model.location.None? then Outcome(w, false) else Outcome(Resolved(w, task.script.listing), failed)
  }

  // ------------------------------------------------------------- the manager

  class AiToolsManager {
    var installLocation: Option<Scope>
    var updateStatus: UpdateStatus
    var version: Option<string>
    var detectError: bool
    var stored: Option<Scope>
    var installedKey: bool
    ghost var checked: Option<Scope>

    ghost function Abstract(): World
      reads this
    {
      World(Model(installLocation, updateStatus, version, detectError), stored, installedKey, checked)
    }

    constructor (persisted: Option<Scope>)
      ensures Abstract() == Initial(persisted)
      ensures installLocation == stored == persisted && (installedKey <==> persisted.Some?)
      ensures updateStatus == Unknown && version == None && !detectError
    {
      installLocation, updateStatus, version, detectError := persisted, Unknown, None, false;
      stored, installedKey, checked := persisted, persisted.Some?, None;
    }

    method DetectInstallImpl(d: Detection) returns (threw: bool)
      modifies this
      ensures threw <==> Find(d).At? && !d.writes
      ensures Abstract() == if Find(d).Failed? then DetectionFailed(old(Abstract()))
                         else if threw then old(Abstract()) else Settled(old(Abstract()), Find(d).location)
    {
      var location: Option<Scope> := None;
      var readFailed := false;
      if d.hasFolder && d.project == ReadFailed {
        readFailed := true;
      } else if d.hasFolder && d.project == Present {
        location := Some(Project);
      } else if d.home == ReadFailed {
        readFailed := true;
      } else if d.home == Present {
        location := Some(Global);
      }
      if readFailed {
        detectError := true;
        installedKey := installLocation.Some?;
        return false;
      }
      if !d.writes {
        return true;
      }
      stored := location;
      installLocation, detectError := location, false;
      if location.None? {
        updateStatus, version := Unknown, None;
      }
      installedKey := installLocation.Some?;
      return false;
    }

    method ResolveInstalledImpl(listing: Option<Listing>)
      modifies this
      ensures Abstract() == Resolved(old(Abstract()), listing)
    {
      if installLocation.None? {
        updateStatus := Unknown;
        return;
      }
      updateStatus := Checking;
      if listing.None? {
        updateStatus := Error;
        return;
      }
      version := Some(listing.value.release);
      updateStatus := ComputeUpdateStatus(listing.value.skills, installLocation.value);
      checked := installLocation;
    }

    method Install(agents: seq<string>, inCursor: bool, script: Script) returns (rejected: bool)
      modifies this
      ensures Outcome(Abstract(), rejected) == Perform(old(Abstract()), Task(Op.Install(agents, inCursor), script))
    {
      if agents == [] {
        return false;
      }
      var agentsToInstall := agents;
      if inCursor {
        agentsToInstall := WithoutCursor(agents);
        if agentsToInstall == [] {
          return false;
        }
      }
      rejected := !script.cliSucceeds;
      var threw := DetectInstallImpl(script.detection);
      if threw {
        return true;
      }
      ResolveInstalledImpl(script.listing);
    }

    method InstallAgent(script: Script) returns (rejected: bool)
      modifies this
      ensures Outcome(Abstract(), rejected) == Perform(old(Abstract()), Task(Op.InstallAgent, script))
    {
      if installLocation.None? {
        return false;
      }
      rejected := !script.cliSucceeds;
      ResolveInstalledImpl(script.listing);
    }

    method Uninstall(script: Script) returns (rejected: bool)
      modifies this
      ensures Outcome(Abstract(), rejected) == Perform(old(Abstract()), Task(Op.Uninstall, script))
    {
      if installLocation.None? {
        return false;
      }
      rejected := !script.cliSucceeds;
      var threw := DetectInstallImpl(script.detection);
      rejected := rejected || threw;
    }

    method Update(script: Script) returns (rejected: bool)
      modifies this
      ensures Outcome(Abstract(), rejected) == Perform(old(Abstract()), Task(Op.Update, script))
    {
      if installLocation.None? {
        return false;
      }
      updateStatus := Updating;
      rejected := !script.cliSucceeds;
      ResolveInstalledImpl(script.listing);
    }
  }

  // ---------------------------------------------- an operation await by await

  datatype Frame = InCli | InProjectFile | InHomeFile | InStorage(location: Option<Scope>) | InList(scope: Scope)

  /** An operation that waits; `failed` remembers an exception on its way out. */
  datatype Running = Running(task: Task, frame: Frame, failed: bool)

  datatype Move = Waits(world: World, running: Running) | Ends(outcome: Outcome)

  function EnterDetection(w: World, task: Task, failed: bool): Move {
    Waits(w, Running(task, if task.script.detection.hasFolder then InProjectFile else InHomeFile, failed))
  }

  function LeaveDetection(w: World, task: Task, failed: bool): Move {
    if task.op.Install? then EnterResolve(w, task, failed) else Ends(Outcome(w, failed))
  }

  function EnterResolve(w: World, task: Task, failed: bool): Move {
    match w.model.location
    case None => Ends(Outcome(w.WithStatus(Unknown), failed))
    case Some(scope) => Waits(w.WithStatus(Checking), Running(task, InList(scope), failed))
  }

  function Enter(w: World, task: Task): Move {
    match task.op
    case DetectInstall => EnterDetection(w, task, false)
    case ResolveInstalled => EnterResolve(w, task, false)
    case Install(agents, inCursor) =>
      if CliAgents(agents, inCursor) == [] then Ends(Outcome(w, false)) else Waits(w, Running(task, InCli, false))
    case _ =>
      if w.model.location.None? then Ends(Outcome(w, false))
      else Waits(if task.op.Update? then w.WithStatus(Updating) else w, Running(task, InCli, false))
  }

  function AfterFile(w: World, r: Running, check: FileCheck, found: Option<Scope>): Move {
    if check == ReadFailed then LeaveDetection(DetectionFailed(w), r.task, r.failed)
    else Waits(w, r.(frame := InStorage(found)))
  }

  /** The awaited call answers. */
  function Resume(w: World, r: Running): Move {
    var script := r.task.script;
    match r.frame
    case InCli =>
      if r.task.op.Install? || r.task.op.Uninstall? then EnterDetection(w, r.task, !script.cliSucceeds)
      else EnterResolve(w, r.task, !script.cliSucceeds)
    case InProjectFile =>
      if script.detection.project == Absent then Waits(w, r.(frame := InHomeFile))
      else AfterFile(w, r, script.detection.project, Some(Project))
    case InHomeFile =>
      AfterFile(w, r, script.detection.home, if script.detection.home == Present then Some(Global) else None)
    case InStorage(location) =>
      if script.detection.writes then LeaveDetection(Settled(w, location), r.task, r.failed)
      else Ends(Outcome(w, true))
    case InList(scope) =>
      Ends(Outcome(
             if script.listing.None? then w.WithStatus(Error) else Listed(w, scope, script.listing.value), r.failed))
  }

  // ------------------------------------------------------------ all schedules

  /** The mutex is `locked` and the tasks in `queue` wait for it; `woken` has been
      let in and has not started; `done` has settled. */
  datatype State = State(
    world: World, locked: bool, queue: seq<Task>, woken: Option<Task>, running: Option<Running>,
    done: seq<Task>, rejections: seq<bool>)

  datatype Event = Request(task: Task) | Start | Answer

  function Start0(stored: Option<Scope>): State {
    State(Initial(stored), false, [], None, None, [], [])
  }

  predicate Allowed(s: State, e: Event) {
    match e
    case Request(_) => true
    case Start => s.woken.Some?
    case Answer => s.running.Some?
  }

  /** The `signal` of the mutex. */
  function Signalled(s: State): State {
    if s.queue == [] then s.(locked := false) else s.(woken := Some(s.queue[0]), queue := s.queue[1..])
  }

  function Moved(s: State, task: Task, move: Move): State {
    match move
    case Waits(world, running) => s.(world := world, running := Some(running))
    case Ends(outcome) =>
      Signalled(s.(world := outcome.world, running := None,
                   done := s.done + [task], rejections := s.rejections + [outcome.rejected]))
  }

  function Step(s: State, e: Event): State
    requires Allowed(s, e)
  {
    match e
    case Request(task) =>
      if s.locked then s.(queue := s.queue + [task]) else s.(locked := true, woken := Some(task))
    case Start => Moved(s.(woken := None), s.woken.value, Enter(s.world, s.woken.value))
    case Answer => Moved(s, s.running.value.task, Resume(s.world, s.running.value))
  }

  ghost predicate Happens(s: State, events: seq<Event>)
    decreases |events|
  {
    events == [] || (Allowed(s, events[0]) && Happens(Step(s, events[0]), events[1..]))
  }

  ghost function Run(s: State, events: seq<Event>): State
    requires Happens(s, events)
    decreases |events|
  {
    if events == [] then s else Run(Step(s, events[0]), events[1..])
  }

  // ------------------------------------------- one operation after the other

  /** The tasks performed one after the other, each as a whole. */
  function Serial(w: World, tasks: seq<Task>): World {
    if tasks == [] then w else Perform(Serial(w, tasks[..|tasks| - 1]), tasks[|tasks| - 1]).world
  }

  function SerialRejections(w: World, tasks: seq<Task>): seq<bool> {
    if tasks == [] then []
    else
      var before := tasks[..|tasks| - 1];
      SerialRejections(w, before) + [Perform(Serial(w, before), tasks[|tasks| - 1]).rejected]
  }

  /** What the rest of a waiting operation will come to. */
  function Rest(w: World, r: Running): Outcome {
    var script := r.task.script;
    match r.frame
    case InCli =>
      if r.task.op.Install? || r.task.op.Uninstall? then Reconciled(w, r.task, !script.cliSucceeds)
      else Outcome(Resolved(w, script.listing), !script.cliSucceeds)
    case InProjectFile => Reconciled(w, r.task, r.failed)
    case InHomeFile =>
      if Home(script.detection).Failed? then Checked(DetectionFailed(w), r.task, r.failed)
      else if script.detection.writes then Checked(Settled(w, Home(script.detection).location), r.task, r.failed)
      else Outcome(w, true)
    case InStorage(location) =>
      if script.detection.writes then Checked(Settled(w, location), r.task, r.failed) else Outcome(w, true)
    case InList(_) => Outcome(Resolved(w, script.listing), r.failed)
  }

  function MoveOutcome(move: Move): Outcome {
    match move
    case Waits(world, running) => Rest(world, running)
    case Ends(outcome) => outcome
  }

  predicate FrameFits(w: World, r: Running) {
    match r.frame
    case InCli => !r.task.op.DetectInstall? && !r.task.op.ResolveInstalled?
    case InProjectFile => r.task.script.detection.hasFolder
    case InList(scope) => w.model.location == Some(scope)
    case _ => true
  }

  predicate MoveFits(move: Move, task: Task) {
    move.Waits? ==> move.running.task == task && FrameFits(move.world, move.running)
  }

  lemma EnterPerforms(w: World, task: Task)
    ensures MoveFits(Enter(w, task), task) && MoveOutcome(Enter(w, task)) == Perform(w, task)
  {}

  lemma ResumeKeepsRest(w: World, r: Running)
    requires FrameFits(w, r)
    ensures MoveFits(Resume(w, r), r.task) && MoveOutcome(Resume(w, r)) == Rest(w, r)
  {}

  /** The tasks that have been asked for and are not done, in order. */
  function Ahead(s: State): seq<Task> {
    (if s.running.Some? then [s.running.value.task] else []) +
    (if s.woken.Some? then [s.woken.value] else []) + s.queue
  }

  predicate MutexHeld(s: State) {
    && (s.locked <==> s.woken.Some? || s.running.Some?)
    && !(s.woken.Some? && s.running.Some?)
    && (!s.locked ==> s.queue == [])
  }

  /** The world is the one the done tasks leave when they run alone; a waiting
      operation is on its way to what it would do alone. */
  predicate IsSerial(s: State, start: World) {
    && MutexHeld(s)
    && s.rejections == SerialRejections(start, s.done)
    && match s.running
       case None => s.world == Serial(start, s.done)
       case Some(r) => FrameFits(s.world, r) && Rest(s.world, r) == Perform(Serial(start, s.done), r.task)
  }

  lemma SerialExtends(start: World, done: seq<Task>, task: Task)
    ensures Serial(start, done + [task]) == Perform(Serial(start, done), task).world
    ensures SerialRejections(start, done + [task]) ==
            SerialRejections(start, done) + [Perform(Serial(start, done), task).rejected]
  {
    assert (done + [task])[..|done|] == done;
  }

  lemma MovedIsSerial(s: State, task: Task, move: Move, start: World)
    requires s.locked && s.woken.None? && s.rejections == SerialRejections(start, s.done)
    requires MoveFits(move, task) && MoveOutcome(move) == Perform(Serial(start, s.done), task)
    ensures IsSerial(Moved(s, task, move), start)
  {
    SerialExtends(start, s.done, task);
  }

  /** What ran has left the front of the waiting tasks for the end of the done ones. */
  lemma MovedKeepsOrder(s: State, task: Task, move: Move)
    requires s.woken.None? && MoveFits(move, task)
    ensures var after := Moved(s, task, move); after.done + Ahead(after) == s.done + ([task] + s.queue)
  {
    if move.Ends? {
      Concatenation(s.done, [task], s.queue);
      assert s.queue != [] ==> [s.queue[0]] + s.queue[1..] == s.queue;
    }
  }

  lemma StepIsSerial(s: State, e: Event, start: World)
    requires Allowed(s, e) && IsSerial(s, start)
    ensures IsSerial(Step(s, e), start)
  {
    match e
    case Request(_) =>
    case Start =>
      EnterPerforms(s.world, s.woken.value);
      MovedIsSerial(s.(woken := None), s.woken.value, Enter(s.world, s.woken.value), start);
    case Answer =>
      ResumeKeepsRest(s.world, s.running.value);
      MovedIsSerial(s, s.running.value.task, Resume(s.world, s.running.value), start);
  }

  function Asked(e: Event): seq<Task> {
    if e.Request? then [e.task] else []
  }

  lemma StartKeepsOrder(s: State)
    requires s.woken.Some? && s.running.None?
    ensures var after := Step(s, Start); after.done + Ahead(after) == s.done + Ahead(s)
  {
    EnterPerforms(s.world, s.woken.value);
    MovedKeepsOrder(s.(woken := None), s.woken.value, Enter(s.world, s.woken.value));
    assert Ahead(s) == [s.woken.value] + s.queue;
  }

  lemma AnswerKeepsOrder(s: State)
    requires s.running.Some? && s.woken.None? && FrameFits(s.world, s.running.value)
    ensures var after := Step(s, Answer); after.done + Ahead(after) == s.done + Ahead(s)
  {
    ResumeKeepsRest(s.world, s.running.value);
    MovedKeepsOrder(s, s.running.value.task, Resume(s.world, s.running.value));
    assert Ahead(s) == [s.running.value.task] + s.queue;
  }

  lemma StepKeepsOrder(s: State, e: Event)
    requires Allowed(s, e) && MutexHeld(s) && (s.running.Some? ==> FrameFits(s.world, s.running.value))
    ensures Step(s, e).done + Ahead(Step(s, e)) == s.done + Ahead(s) + Asked(e)
  {
    match e
    case Request(task) =>
      Concatenation(s.done, Ahead(s), [task]);
    case Start =>
      StartKeepsOrder(s);
    case Answer =>
      AnswerKeepsOrder(s);
  }

  function Requests(events: seq<Event>): seq<Task> {
    if events == [] then [] else Asked(events[0]) + Requests(events[1..])
  }

  /** Whatever the interleaving, the operations take effect in the order in which
      they were asked for, each as if it ran alone; a caller's promise is
      rejected exactly when it would be then. */
  lemma {:induction false} RunIsSerial(s: State, events: seq<Event>, start: World)
    requires IsSerial(s, start) && Happens(s, events)
    ensures IsSerial(Run(s, events), start)
    ensures Run(s, events).done + Ahead(Run(s, events)) == s.done + Ahead(s) + Requests(events)
    decreases |events|
  {
    if events != [] {
      var e := events[0];
      StepIsSerial(s, e, start);
      StepKeepsOrder(s, e);
      RunIsSerial(Step(s, e), events[1..], start);
      Concatenation(s.done + Ahead(s), Asked(e), Requests(events[1..]));
    }
  }

  /** How many more answers an operation can wait for. */
  function AnswersLeft(r: Running): nat {
    match r.frame
    case InCli => 5
    case InProjectFile => 4
    case InHomeFile => 3
    case InStorage(_) => 2
    case InList(_) => 1
  }

  /** Each answer brings the running operation nearer to its end, so the mutex is
      given back once the outside world has answered at most five times. */
  lemma EveryAnswerAdvances(s: State, start: World)
    requires IsSerial(s, start) && s.running.Some?
    ensures var after := Step(s, Answer);
            if after.running.Some? then AnswersLeft(after.running.value) < AnswersLeft(s.running.value)
            else after.done == s.done + [s.running.value.task]
  {}

  // -------------------------------------------------- what holds between them

  predicate Agrees(w: World) {
    w.stored == w.model.location && (w.installedKey <==> w.model.location.Some?)
  }

  /** No transient status is shown, nothing is claimed of tools that are not
      there, and storage and context key agree with the model. */
  predicate Consistent(w: World) {
    && w.model.status != Checking && w.model.status != Updating
    && (w.model.location.None? ==> w.model.status == Unknown && w.model.version.None?)
    && Agrees(w)
  }

  lemma PerformKeepsConsistent(w: World, task: Task)
    requires Consistent(w)
    ensures Consistent(Perform(w, task).world)
  {}

  lemma {:induction false} SerialIsConsistent(start: World, tasks: seq<Task>)
    requires Consistent(start)
    ensures Consistent(Serial(start, tasks))
  {
    if tasks != [] {
      SerialIsConsistent(start, tasks[..|tasks| - 1]);
      PerformKeepsConsistent(Serial(start, tasks[..|tasks| - 1]), tasks[|tasks| - 1]);
    }
  }

  /** In every run, whatever fails: whenever no operation is under way (so
      whenever the mutex is free) the state is consistent. */
  lemma IdleIsConsistent(stored: Option<Scope>, events: seq<Event>)
    requires Happens(Start0(stored), events)
    ensures var end := Run(Start0(stored), events);
            (!end.locked ==> end.running.None?) && (end.running.None? ==> Consistent(end.world))
  {
    var start := Initial(stored);
    RunIsSerial(Start0(stored), events, start);
    SerialIsConsistent(start, Run(Start0(stored), events).done);
  }

  /** A failed read or write never changes what is believed to be installed; a
      detection that succeeds installs its own answer. */
  lemma LocationFollowsDetection(w: World, task: Task)
    requires Consistent(w)
    ensures var after := Perform(w, task).world; var found := Find(task.script.detection);
            after.model.location ==
            if Detects(w, task.op) && found.At? && task.script.detection.writes then found.location
            else w.model.location
  {}

  predicate Detects(w: World, op: Op) {
    match op
    case DetectInstall => true
    case Install(agents, inCursor) => CliAgents(agents, inCursor) != []
    case Uninstall => w.model.location.Some?
    case _ => false
  }

  /** A verdict about updates is about the scope that is installed. */
  predicate VerdictFits(w: World) {
    w.model.status == UpToDate || w.model.status == UpdateAvailable ==> w.checked == w.model.location
  }

  /** The detection ends the operation and moves from one scope to the other. */
  predicate MovesUnchecked(w: World, task: Task) {
    var found := Find(task.script.detection);
    && Detects(w, task.op) && !task.op.Install? && task.script.detection.writes
    && found.At? && found.location.Some? && found.location != w.model.location
    && (w.model.status == UpToDate || w.model.status == UpdateAvailable)
  }

  /** Only a bare detection (or an uninstall) that finds the other scope leaves a
      verdict about the scope that is gone; a check that follows repairs it. */
  lemma VerdictFitsUnlessMoved(w: World, task: Task)
    requires Consistent(w) && VerdictFits(w)
    ensures VerdictFits(Perform(w, task).world) <==> !MovesUnchecked(w, task)
  {}

  /** Such an operation: uninstalling the project's tools uncovers an outdated
      global install, and the project's verdict stays. */
  lemma UninstallKeepsOldVerdict(version: string, listing: Option<Listing>)
    ensures
      var w := World(Model(Some(Project), UpToDate, Some(version), false), Some(Project), true, Some(Project));
      var task := Task(Uninstall, Script(true, Detection(true, Absent, Present, true), listing));
      var after := Perform(w, task).world;
      Consistent(w) && VerdictFits(w) && !VerdictFits(after) &&
      after.model == Model(Some(Global), UpToDate, Some(version), false)
  {
    var d := Detection(true, Absent, Present, true);
    assert Find(d) == At(Some(Global));
  }

  lemma CheckRepairsVerdict(w: World, script: Script)
    requires Consistent(w)
    ensures VerdictFits(Perform(w, Task(ResolveInstalled, script)).world)
  {}

  predicate IsVerdict(status: UpdateStatus) {
    status == UpToDate || status == UpdateAvailable
  }

  /** The operation checks for updates, or finds that nothing is installed. */
  predicate Checks(w: World, task: Task) {
    var d := task.script.detection;
    match task.op
    case ResolveInstalled => true
    case InstallAgent => w.model.location.Some?
    case Update => w.model.location.Some?
    case Install(agents, inCursor) => CliAgents(agents, inCursor) != [] && (Find(d).At? ==> d.writes)
    case DetectInstall => Find(d) == At(None) && d.writes
    case Uninstall => w.model.location.Some? && Find(d) == At(None) && d.writes
  }

  lemma ChecksFit(w: World, task: Task)
    requires Consistent(w)
    ensures Checks(w, task) ==> VerdictFits(Perform(w, task).world)
    ensures !Checks(w, task) ==>
              Perform(w, task).world.model.status == w.model.status && Perform(w, task).world.checked == w.checked
  {}

  /** How many of the tasks there are up to the last that checks. */
  function LastCheck(start: World, tasks: seq<Task>): (n: nat)
    ensures n <= |tasks|
  {
    if tasks == [] then 0
    else
      var front := tasks[..|tasks| - 1];
      if Checks(Serial(start, front), tasks[|tasks| - 1]) then |tasks| else LastCheck(start, front)
  }

  lemma {:induction false} VerdictIsOfLastCheck(start: World, tasks: seq<Task>)
    requires Consistent(start) && VerdictFits(start)
    ensures var last, now := Serial(start, tasks[..LastCheck(start, tasks)]), Serial(start, tasks);
            VerdictFits(last) && now.model.status == last.model.status && now.checked == last.checked
  {
    assert tasks[..|tasks|] == tasks;
    if tasks != [] {
      var front, last := tasks[..|tasks| - 1], tasks[|tasks| - 1];
      SerialIsConsistent(start, front);
      ChecksFit(Serial(start, front), last);
      if !Checks(Serial(start, front), last) {
        VerdictIsOfLastCheck(start, front);
        assert front[..LastCheck(start, front)] == tasks[..LastCheck(start, front)];
      }
    }
  }

  /** In every run, at every moment at which no operation is under way: a verdict on
      show is about the installed scope exactly when that is still the scope of the
      last operation that checked for updates (or found nothing). */
  lemma IdleVerdictFitsIff(stored: Option<Scope>, events: seq<Event>)
    requires Happens(Start0(stored), events) && Run(Start0(stored), events).running.None?
    ensures var start, end := Initial(stored), Run(Start0(stored), events);
            var last := Serial(start, end.done[..LastCheck(start, end.done)]);
            VerdictFits(end.world) <==>
            (IsVerdict(last.model.status) ==> end.world.model.location == last.model.location)
  {
    RunIsSerial(Start0(stored), events, Initial(stored));
    VerdictIsOfLastCheck(Initial(stored), Run(Start0(stored), events).done);
  }

  // ----------------------------------------------- every order of tasks happens

  predicate IsIdle(s: State) {
    !s.locked && s.queue == [] && s.woken.None? && s.running.None?
  }

  lemma Prepend(s: State, e: Event, events: seq<Event>)
    requires Allowed(s, e) && Happens(Step(s, e), events)
    ensures Happens(s, [e] + events) && Run(s, [e] + events) == Run(Step(s, e), events)
  {
    assert ([e] + events)[1..] == events;
  }

  lemma {:induction false} HappensConcat(s: State, a: seq<Event>, b: seq<Event>)
    requires Happens(s, a) && Happens(Run(s, a), b)
    ensures Happens(s, a + b) && Run(s, a + b) == Run(Run(s, a), b)
    decreases |a|
  {
    if a == [] {
      assert a + b == b;
    } else {
      HappensConcat(Step(s, a[0]), a[1..], b);
      Prepend(s, a[0], a[1..] + b);
      assert [a[0]] + (a[1..] + b) == a + b;
    }
  }

  /** Once all its answers are in, a running operation is done. */
  lemma {:induction false} AnswerAll(s: State, start: World) returns (events: seq<Event>)
    requires IsSerial(s, start) && s.running.Some? && s.queue == []
    ensures Happens(s, events) && IsIdle(Run(s, events)) && IsSerial(Run(s, events), start)
    ensures Run(s, events).done == s.done + [s.running.value.task]
    decreases AnswersLeft(s.running.value)
  {
    var after := Step(s, Answer);
    StepIsSerial(s, Answer, start);
    EveryAnswerAdvances(s, start);
    var rest: seq<Event> := [];
    if after.running.Some? {
      AnswerKeepsTask(s);
      rest := AnswerAll(after, start);
    }
    events := [Answer] + rest;
    Prepend(s, Answer, rest);
  }

  lemma AnswerKeepsTask(s: State)
    requires s.running.Some? && Step(s, Answer).running.Some?
    ensures var after := Step(s, Answer);
            after.running.value.task == s.running.value.task && after.done == s.done && after.queue == s.queue
  {}

  lemma RunOne(s: State, task: Task, start: World) returns (events: seq<Event>)
    requires IsIdle(s) && IsSerial(s, start)
    ensures Happens(s, events) && IsIdle(Run(s, events)) && IsSerial(Run(s, events), start)
    ensures Run(s, events).done == s.done + [task]
  {
    var asked := Step(s, Request(task));
    var started := Step(asked, Start);
    StepIsSerial(s, Request(task), start);
    StepIsSerial(asked, Start, start);
    EnterKeepsTask(s.world, task);
    var rest: seq<Event> := [];
    if started.running.Some? {
      rest := AnswerAll(started, start);
    }
    Prepend(asked, Start, rest);
    Prepend(s, Request(task), [Start] + rest);
    events := [Request(task)] + ([Start] + rest);
  }

  lemma EnterKeepsTask(w: World, task: Task)
    ensures Enter(w, task).Waits? ==> Enter(w, task).running.task == task
  {}

  /** Every list of tasks is what some run has done when it is idle. */
  lemma {:induction false} EveryListHappens(stored: Option<Scope>, tasks: seq<Task>) returns (events: seq<Event>)
    ensures Happens(Start0(stored), events) && IsIdle(Run(Start0(stored), events))
    ensures IsSerial(Run(Start0(stored), events), Initial(stored)) && Run(Start0(stored), events).done == tasks
  {
    if tasks == [] {
      events := [];
    } else {
      var front, last := tasks[..|tasks| - 1], tasks[|tasks| - 1];
      var before := EveryListHappens(stored, front);
      var after := RunOne(Run(Start0(stored), before), last, Initial(stored));
      HappensConcat(Start0(stored), before, after);
      events := before + after;
      assert front + [last] == tasks;
    }
  }

  /** A run that ends with a verdict about tools that are gone: the project's are
      installed and checked, then uninstalled, which uncovers a global install. */
  lemma OldVerdictIsReached(release: string) returns (events: seq<Event>)
    ensures Happens(Start0(None), events) && IsIdle(Run(Start0(None), events))
    ensures Run(Start0(None), events).world.model == Model(Some(Global), UpToDate, Some(release), false)
    ensures !VerdictFits(Run(Start0(None), events).world)
  {
    var listing := Some(Listing(release, []));
    var install := Task(Install(["codex"], false), Script(true, Detection(true, Present, Present, true), listing));
    var uninstall := Task(Uninstall, Script(true, Detection(true, Absent, Present, true), listing));
    events := EveryListHappens(None, [install, uninstall]);
    SerialExtends(Initial(None), [], install);
    SerialExtends(Initial(None), [install], uninstall);
    assert [] + [install] == [install] && [install] + [uninstall] == [install, uninstall];
    InstalledWorld(release);
    UninstallKeepsOldVerdict(release, listing);
  }

  lemma InstalledWorld(release: string)
    ensures
      var task := Task(Install(["codex"], false),
                       Script(true, Detection(true, Present, Present, true), Some(Listing(release, []))));
      Perform(Initial(None), task).world ==
      World(Model(Some(Project), UpToDate, Some(release), false), Some(Project), true, Some(Project))
  {
    assert Find(Detection(true, Present, Present, true)) == At(Some(Project));
    assert ["codex"] != [];
  }

  // ------------------------------------------- what each operation leaves behind

  /** The state file that decides cannot be read: the project's where there is a
      folder, and the home one when the project has none. */
  predicate CannotRead(d: Detection) {
    if d.hasFolder && d.project != Absent then d.project == ReadFailed else d.home == ReadFailed
  }

  predicate IsAt(location: Option<Scope>, d: Detection) {
    match location
    case Some(Project) => d.hasFolder && d.project == Present
    case Some(Global) => !(d.hasFolder && d.project == Present) && d.home == Present
    case None => !(d.hasFolder && d.project == Present) && d.home != Present
  }

  /** The operation has something to do. */
  predicate Acts(w: World, op: Op) {
    match op
    case Install(agents, inCursor) => exists agent :: agent in agents && (inCursor ==> agent != "cursor")
    case InstallAgent => w.model.location.Some?
    case Uninstall => w.model.location.Some?
    case Update => w.model.location.Some?
    case _ => true
  }

  predicate LooksForTools(op: Op) {
    op.DetectInstall? || op.Install? || op.Uninstall?
  }

  predicate CallsCli(op: Op) {
    op.Install? || op.InstallAgent? || op.Uninstall? || op.Update?
  }

  /** Every skill that is installed in the scope has its latest version there. */
  predicate AllLatest(skills: seq<Skill>, scope: Scope) {
    forall skill | skill in skills && scope in skill.installed && skill.installed[scope] != "" ::
      skill.installed[scope] == skill.latest
  }

  lemma {:induction false} ActsOnAgents(agents: seq<string>)
    ensures WithoutCursor(agents) != [] <==> exists agent :: agent in agents && agent != "cursor"
  {
    if agents != [] {
      ActsOnAgents(agents[1..]);
      assert agents == [agents[0]] + agents[1..];
      assert agents[0] in agents && forall agent | agent in agents[1..] :: agent in agents;
    }
  }

  lemma ActsIff(w: World, task: Task)
    requires task.op.Install?
    ensures CliAgents(task.op.agents, task.op.inCursor) != [] <==> Acts(w, task.op)
  {
    ActsOnAgents(task.op.agents);
    if task.op.agents != [] {
      assert task.op.agents[0] in task.op.agents;
    }
  }

  /** Nothing changes without something to do. */
  lemma IdleOperation(w: World, task: Task)
    requires !Acts(w, task.op)
    ensures Perform(w, task) == Outcome(w, false)
  {
    if task.op.Install? {
      ActsIff(w, task);
    }
  }

  /** An operation is rejected when its CLI call fails, or when the location it has
      found cannot be stored. */
  lemma RejectedIff(w: World, task: Task)
    ensures Perform(w, task).rejected <==>
      && Acts(w, task.op)
      && ((CallsCli(task.op) && !task.script.cliSucceeds)
          || (LooksForTools(task.op) && !CannotRead(task.script.detection) && !task.script.detection.writes))
  {
    if task.op.Install? {
      ActsIff(w, task);
    }
  }

  /** Where an operation that looks for the tools finds them: the project first. The
      model, the storage and the context key agree on it. */
  lemma LocationFound(w: World, task: Task)
    requires LooksForTools(task.op) && Acts(w, task.op)
    ensures var d, after := task.script.detection, Perform(w, task).world;
            if CannotRead(d) then
              && after.model.location == w.model.location && after.stored == w.stored && after.model.detectError
            else if !d.writes then after == w
            else
              && IsAt(after.model.location, d) && after.stored == after.model.location && !after.model.detectError
              && (after.installedKey <==> after.model.location.Some?)
  {
    if task.op.Install? {
      ActsIff(w, task);
    }
  }

  lemma LocationStays(w: World, task: Task)
    requires !LooksForTools(task.op)
    ensures var after := Perform(w, task).world;
            && after.model.location == w.model.location && after.stored == w.stored
            && after.model.detectError == w.model.detectError && after.installedKey == w.installedKey
  {}

  /** Without an update check, the status and the version stay, and go when nothing
      is installed any more. */
  lemma StatusWithoutCheck(w: World, task: Task)
    requires (task.op.DetectInstall? || task.op.Uninstall?) && Acts(w, task.op)
    ensures var d, after := task.script.detection, Perform(w, task).world;
            if !CannotRead(d) && d.writes && IsAt(None, d)
            then after.model.status == Unknown && after.model.version == None
            else after.model.status == w.model.status && after.model.version == w.model.version
  {}

  predicate ChecksForUpdates(op: Op) {
    op.ResolveInstalled? || op.Install? || op.InstallAgent? || op.Update?
  }

  lemma UpToDateIff(skills: seq<Skill>, scope: Scope)
    ensures ComputeUpdateStatus(skills, scope) == if AllLatest(skills, scope) then UpToDate else UpdateAvailable
  {
    if !AllLatest(skills, scope) {
      var skill :| skill in skills && scope in skill.installed && skill.installed[scope] != "" &&
                   skill.installed[scope] != skill.latest;
      var i :| 0 <= i < |skills| && skills[i] == skill;
      assert IsOutdated(skills[i], scope);
    }
  }

  /** After an update check: nothing is known without an installation; a failed
      listing is an error, and keeps the version; otherwise the tools are up to date exactly when every
      skill installed in their scope has its latest version there. */
  lemma StatusAfterCheck(w: World, task: Task)
    requires ChecksForUpdates(task.op) && Acts(w, task.op)
    requires task.op.Install? ==> CannotRead(task.script.detection) || task.script.detection.writes
    ensures var after := Perform(w, task).world.model;
            match after.location
            case None => after.status == Unknown
            case Some(scope) =>
              match task.script.listing
              case None => after.status == Error && after.version == w.model.version
              case Some(listing) =>
                && after.version == Some(listing.release)
                && after.status == if AllLatest(listing.skills, scope) then UpToDate else UpdateAvailable
  {
    if task.op.Install? {
      ActsIff(w, task);
    }
    var after := Perform(w, task).world.model;
    if after.location.Some? && task.script.listing.Some? {
      UpToDateIff(task.script.listing.value.skills, after.location.value);
    }
  }

  lemma AllLatestByScope(one: seq<Skill>, other: seq<Skill>, scope: Scope)
    requires |one| == |other| && forall i | 0 <= i < |one| ::
               one[i].latest == other[i].latest && Get(one[i].installed, scope) == Get(other[i].installed, scope)
    ensures AllLatest(one, scope) <==> AllLatest(other, scope)
  {
    if AllLatest(one, scope) {
      LatestByScope(other, one, scope);
    }
    if AllLatest(other, scope) {
      LatestByScope(one, other, scope);
    }
  }

  lemma LatestByScope(one: seq<Skill>, other: seq<Skill>, scope: Scope)
    requires |one| == |other| && AllLatest(other, scope) && forall i | 0 <= i < |one| ::
               one[i].latest == other[i].latest && Get(one[i].installed, scope) == Get(other[i].installed, scope)
    ensures AllLatest(one, scope)
  {
    forall skill | skill in one && scope in skill.installed && skill.installed[scope] != ""
      ensures skill.installed[scope] == skill.latest
    {
      var i :| 0 <= i < |one| && one[i] == skill;
      assert Get(one[i].installed, scope) == Some(skill.installed[scope]);
      assert other[i] in other;
    }
  }

  /** The two listings agree on the release and on what one scope has. */
  predicate SameFor(location: Option<Scope>, a: Listing, b: Listing) {
    && a.release == b.release && |a.skills| == |b.skills|
    && (location.Some? ==> forall i | 0 <= i < |a.skills| ::
          && a.skills[i].latest == b.skills[i].latest
          && Get(a.skills[i].installed, location.value) == Get(b.skills[i].installed, location.value))
  }

  lemma ResolvedByScope(w: World, a: Listing, b: Listing)
    requires SameFor(w.model.location, a, b)
    ensures Resolved(w, Some(a)) == Resolved(w, Some(b))
  {
    if w.model.location.Some? {
      var scope := w.model.location.value;
      AllLatestByScope(a.skills, b.skills, scope);
      UpToDateIff(a.skills, scope);
      UpToDateIff(b.skills, scope);
    }
  }

  /** What is installed in the other scope does not matter. */
  lemma OtherScopeDoesNotMatter(w: World, op: Op, script: Script, a: Listing, b: Listing)
    requires SameFor(Perform(w, Task(op, script.(listing := Some(a)))).world.model.location, a, b)
    ensures Perform(w, Task(op, script.(listing := Some(a)))) == Perform(w, Task(op, script.(listing := Some(b))))
  {
    var before := match Find(script.detection)
      case Failed => DetectionFailed(w)
      case At(location) => Settled(w, location);
    var resolving := if op.Install? then before else w;
    if SameFor(resolving.model.location, a, b) {
      ResolvedByScope(resolving, a, b);
    }
  }

  /** What is shown while an operation waits for the list or for its update. */
  predicate ShowsWaiting(s: State) {
    s.running.Some? ==>
      && (s.running.value.frame.InList? ==> s.world.model.status == Checking)
      && (s.running.value.frame.InCli? && s.running.value.task.op.Update? ==> s.world.model.status == Updating)
  }

  lemma {:induction false} StatusWhileWaiting(s: State, events: seq<Event>)
    requires ShowsWaiting(s) && Happens(s, events)
    ensures ShowsWaiting(Run(s, events))
    decreases |events|
  {
    if events != [] {
      StatusWhileWaiting(Step(s, events[0]), events[1..]);
    }
  }

  /** The CLI gets the chosen agents in their order, never the Cursor agent in
      Cursor; with none left it is not called. */
  lemma {:induction false} CursorIsNotPassed(agents: seq<string>, agent: string)
    ensures agent in WithoutCursor(agents) <==> agent in agents && agent != "cursor"
  {
    if agents != [] {
      CursorIsNotPassed(agents[1..], agent);
      assert agents == [agents[0]] + agents[1..];
    }
  }
}
