/** One load of the cluster list (packages/databricks-vscode/src/cluster/ClusterLoader.ts):
    a pool of at most fifty permission checks that finish in any order, and may
    be stopped at any moment. */
module ClusterPool {
  import opened Wrappers

  datatype Cluster = Cluster(id: string, name: string)

  /** What a permission check comes to. */
  datatype Verdict = Keep | Drop | Failure

  /** `list` are the clusters to check, `verdicts` what each check will say, and
      `before` the map at the start. */
  datatype Load = Load(list: seq<Cluster>, verdicts: seq<Verdict>, before: map<string, Cluster>)

  const MAX_CONCURRENT := 50

  predicate Distinct(list: seq<Cluster>) {
    forall i, j | 0 <= i < j < |list| :: list[i].id != list[j].id
  }

  predicate IsLoad(l: Load) {
    |l.verdicts| == |l.list| && Distinct(l.list)
  }

  function AfterCheck(clusters: map<string, Cluster>, c: Cluster, verdict: Verdict): map<string, Cluster> {
    match verdict
    case Keep => clusters[c.id := c]
    case Drop => clusters - {c.id}
    case Failure => clusters
  }

  predicate IsListed(list: seq<Cluster>, id: string) {
    exists i | 0 <= i < |list| :: list[i].id == id
  }

  function OnlyListed(clusters: map<string, Cluster>, list: seq<Cluster>): map<string, Cluster> {
    map id | id in clusters && IsListed(list, id) :: clusters[id]
  }

  function IndexOf(wip: seq<nat>, task: nat): (i: nat)
    requires task in wip
    ensures i < |wip| && wip[i] == task
  {
    if wip[0] == task then 0 else 1 + IndexOf(wip[1..], task)
  }

  function Spliced(wip: seq<nat>, task: nat): seq<nat>
    requires task in wip
  {
    var i := IndexOf(wip, task);
    wip[..i] + wip[i + 1..]
  }

  // -------------------------------------------------------------- the loader

  class ClusterLoader {
    var clusters: map<string, Cluster>
    var running: bool
    var fired: nat

    /** The handler of one permission check. */
    method Settle(c: Cluster, verdict: Verdict)
      modifies this
      ensures running == old(running)
      ensures clusters == if running then AfterCheck(old(clusters), c, verdict) else old(clusters)
      ensures fired == old(fired) + if running && (verdict.Keep? || (verdict.Drop? && c.id in old(clusters))) then 1 else 0
    {
      if verdict.Failure? || !running {
        return;
      }
      var keepCluster := verdict.Keep?;
      if c.id in clusters && !keepCluster {
        clusters := clusters - {c.id};
        fired := fired + 1;
      }
      if keepCluster {
        clusters := clusters[c.id := c];
        fired := fired + 1;
      }
    }

    method CleanupClustersMap(list: seq<Cluster>)
      modifies this
      ensures running == old(running)
      ensures clusters == OnlyListed(old(clusters), list)
      ensures fired == old(fired) + if clusters == old(clusters) then 0 else 1
    {
      var toDelete := Unlisted(clusters, list);
      clusters := clusters - toDelete;
      if toDelete != {} {
        var key :| key in toDelete;
        assert key in old(clusters) && key !in clusters;
        fired := fired + 1;
      }
    }

    /** Without access filtering, the list replaces the map. */
    method ReplaceAll(list: seq<Cluster>)
      modifies this
      ensures running == old(running)
      ensures clusters == ListedMap(list) && fired == old(fired) + 1
    {
      clusters := ListedMap(list);
      fired := fired + 1;
      ListedMapIsListed(list);
      CleanupClustersMap(list);
    }
  }

  method Includes(list: seq<Cluster>, id: string) returns (found: bool)
    ensures found <==> IsListed(list, id)
  {
    found := false;
    for i := 0 to |list|
      invariant found <==> exists k | 0 <= k < i :: list[k].id == id
    {
      if list[i].id == id {
        found := true;
      }
    }
  }

  /** The keys of the map that are in no listed cluster. */
  method Unlisted(clusters: map<string, Cluster>, list: seq<Cluster>) returns (toDelete: set<string>)
    ensures forall id :: id in toDelete <==> id in clusters && !IsListed(list, id)
  {
    toDelete := {};
    var keys := clusters.Keys;
    while keys != {}
      invariant keys <= clusters.Keys
      invariant forall id :: id in toDelete <==> id in clusters && id !in keys && !IsListed(list, id)
      decreases |keys|
    {
      var key :| key in keys;
      var listed := Includes(list, key);
      if !listed {
        toDelete := toDelete + {key};
      }
      keys := keys - {key};
    }
  }

  /** `new Map(list.map((c) => [c.id, c]))` */
  function ListedMap(list: seq<Cluster>): map<string, Cluster> {
    if list == [] then map[]
    else
      var last := list[|list| - 1];
      ListedMap(list[..|list| - 1])[last.id := last]
  }

  lemma {:induction false} ListedMapIsListed(list: seq<Cluster>)
    ensures forall id :: id in ListedMap(list) <==> IsListed(list, id)
  {
    if list != [] {
      var front, last := list[..|list| - 1], list[|list| - 1];
      ListedMapIsListed(front);
      forall id
        ensures id in ListedMap(list) <==> IsListed(list, id)
      {
        if IsListed(list, id) {
          var i :| 0 <= i < |list| && list[i].id == id;
          assert i < |front| ==> front[i].id == id;
        }
        if IsListed(front, id) {
          var i :| 0 <= i < |front| && front[i].id == id;
          assert list[i].id == id;
        }
        assert list[|list| - 1].id == last.id;
      }
    }
  }

  // ------------------------------------------------------------ all schedules

  /** Where the loop over the list stands: before its test of `running`, past it,
      after the loop, or at the end. */
  datatype Phase = AtTest | Passed | Draining | Done

  /** `wip` is the array of the source; `waiting` are the tasks whose check has not
      answered; `applied` (no part of the source's state) are those whose answer
      came while the loader was running. */
  datatype State = State(
    running: bool, phase: Phase, launched: nat, wip: seq<nat>, waiting: set<nat>, applied: set<nat>,
    clusters: map<string, Cluster>)

  datatype Event = Test | Launch | Answer(task: nat) | Splice(task: nat) | Finish | Stop

  function Initial(l: Load): State {
    State(true, AtTest, 0, [], {}, {}, l.before)
  }

  predicate Allowed(l: Load, s: State, e: Event) {
    match e
    case Test => s.phase == AtTest
    case Launch => s.phase == Passed && |s.wip| != MAX_CONCURRENT
    case Answer(task) => task in s.waiting && task < |l.list|
    case Splice(task) => task in s.wip && task !in s.waiting
    case Finish => s.phase == Draining && forall i | 0 <= i < |s.wip| :: s.wip[i] !in s.waiting
    case Stop => true
  }

  function Step(l: Load, s: State, e: Event): State
    requires IsLoad(l) && Allowed(l, s, e)
  {
    match e
    case Test => s.(phase := if s.running && s.launched < |l.list| then Passed else Draining)
    case Launch =>
      s.(phase := AtTest, launched := s.launched + 1, wip := s.wip + [s.launched], waiting := s.waiting + {s.launched})
    case Answer(task) =>
      var answered := s.(waiting := s.waiting - {task});
      if s.running then
        answered.(applied := s.applied + {task},
                  clusters := AfterCheck(s.clusters, l.list[task], l.verdicts[task]))
      else answered
    case Splice(task) => s.(wip := Spliced(s.wip, task))
    case Finish => s.(phase := Done, clusters := OnlyListed(s.clusters, l.list))
    case Stop => s.(running := false)
  }

  ghost predicate Happens(l: Load, s: State, events: seq<Event>)
    requires IsLoad(l)
    decreases |events|
  {
    events == [] || (Allowed(l, s, events[0]) && Happens(l, Step(l, s, events[0]), events[1..]))
  }

  ghost function Run(l: Load, s: State, events: seq<Event>): State
    requires IsLoad(l) && Happens(l, s, events)
    decreases |events|
  {
    if events == [] then s else Run(l, Step(l, s, events[0]), events[1..])
  }

  /** The handlers of the class change the map as the steps do. */
  method Deliver(loader: ClusterLoader, l: Load, s: State, e: Event)
    requires IsLoad(l) && Allowed(l, s, e)
    requires loader.clusters == s.clusters && loader.running == s.running
    modifies loader
    ensures loader.clusters == Step(l, s, e).clusters && loader.running == Step(l, s, e).running
  {
    match e
    case Answer(task) =>
      loader.Settle(l.list[task], l.verdicts[task]);
    case Finish =>
      loader.CleanupClustersMap(l.list);
    case Stop =>
      loader.running := false;
    case _ =>
  }

  // ------------------------------------------------------ the pool is bounded

  function Elements(wip: seq<nat>): set<nat> {
    set i | 0 <= i < |wip| :: wip[i]
  }

  predicate PoolValid(l: Load, s: State) {
    && s.launched <= |l.list| && |s.wip| <= MAX_CONCURRENT
    && (s.phase == Passed ==> s.launched < |l.list|)
    && (forall i | 0 <= i < |s.wip| :: s.wip[i] < s.launched)
    && NoRepeats(s.wip)
    && s.waiting <= Elements(s.wip)
    && (s.phase == Done ==> s.waiting == {})
  }

  lemma SplicedElements(wip: seq<nat>, task: nat)
    requires task in wip && NoRepeats(wip)
    ensures NoRepeats(Spliced(wip, task)) && |Spliced(wip, task)| == |wip| - 1
    ensures Elements(Spliced(wip, task)) == Elements(wip) - {task}
  {
    var at, rest := IndexOf(wip, task), Spliced(wip, task);
    assert forall i | 0 <= i < |rest| :: rest[i] == wip[if i < at then i else i + 1];
    forall t | t in Elements(wip) && t != task
      ensures t in Elements(rest)
    {
      var i :| 0 <= i < |wip| && wip[i] == t;
      assert rest[if i < at then i else i - 1] == t;
    }
  }

  lemma PushedElements(wip: seq<nat>, task: nat)
    ensures Elements(wip + [task]) == Elements(wip) + {task}
  {
    forall t | t in Elements(wip)
      ensures t in Elements(wip + [task])
    {
      var i :| 0 <= i < |wip| && wip[i] == t;
      assert (wip + [task])[i] == t;
    }
    assert (wip + [task])[|wip|] == task;
  }

  lemma StepKeepsPool(l: Load, s: State, e: Event)
    requires IsLoad(l) && Allowed(l, s, e) && PoolValid(l, s)
    ensures PoolValid(l, Step(l, s, e))
  {
    match e
    case Launch =>
      PushedElements(s.wip, s.launched);
    case Splice(task) =>
      SplicedElements(s.wip, task);
      var after := Step(l, s, e);
      assert forall i | 0 <= i < |after.wip| :: after.wip[i] in Elements(after.wip);
      assert forall t | t in Elements(s.wip) :: t < s.launched;
    case Finish =>
      assert forall t | t in Elements(s.wip) :: t !in s.waiting;
    case _ =>
  }

  lemma {:induction false} ElementsAreFew(wip: seq<nat>)
    ensures |Elements(wip)| <= |wip|
  {
    if wip == [] {
      assert Elements(wip) == {};
    } else {
      var front := wip[..|wip| - 1];
      ElementsAreFew(front);
      PushedElements(front, wip[|wip| - 1]);
      assert front + [wip[|wip| - 1]] == wip;
    }
  }

  lemma {:induction false} SubsetIsSmaller(small: set<nat>, large: set<nat>)
    requires small <= large
    ensures |small| <= |large|
  {
    if small != {} {
      var t :| t in small;
      SubsetIsSmaller(small - {t}, large - {t});
    }
  }

  // ------------------------------------------------- what the map comes to be

  /** What the map holds for the i-th cluster once the answers of `applied` are in:
      a cluster whose check failed stays as it was. */
  function Expected(l: Load, applied: set<nat>, i: nat): Option<Cluster>
    requires IsLoad(l) && i < |l.list|
  {
    if i !in applied || l.verdicts[i].Failure? then Get(l.before, l.list[i].id)
    else if l.verdicts[i].Keep? then Some(l.list[i])
    else None
  }

  predicate MapFits(l: Load, s: State)
    requires IsLoad(l)
  {
    forall i | 0 <= i < |l.list| :: Get(s.clusters, l.list[i].id) == Expected(l, s.applied, i)
  }

  /** Clusters that are not listed stay until the end. */
  ghost predicate OthersFit(l: Load, s: State) {
    forall id | !IsListed(l.list, id) :: Get(s.clusters, id) == if s.phase.Done? then None else Get(l.before, id)
  }

  /** While the loader runs, every answer counts, and the loop ends only when all
      checks have been launched. */
  predicate AppliedFits(l: Load, s: State) {
    && (forall t :: t in s.applied ==> t < s.launched && t !in s.waiting)
    && (s.running ==> forall t | 0 <= t < s.launched :: t in s.applied || t in s.waiting)
    && (s.running && (s.phase.Draining? || s.phase.Done?) ==> s.launched == |l.list|)
  }

  ghost predicate Valid(l: Load, s: State)
    requires IsLoad(l)
  {
    PoolValid(l, s) && AppliedFits(l, s) && MapFits(l, s) && OthersFit(l, s)
  }

  lemma StepKeepsApplied(l: Load, s: State, e: Event)
    requires IsLoad(l) && Allowed(l, s, e) && PoolValid(l, s) && AppliedFits(l, s)
    ensures AppliedFits(l, Step(l, s, e))
  {
    if e.Answer? {
      assert e.task in Elements(s.wip);
    }
  }

  lemma StepKeepsMap(l: Load, s: State, e: Event)
    requires IsLoad(l) && Allowed(l, s, e) && AppliedFits(l, s) && MapFits(l, s)
    ensures MapFits(l, Step(l, s, e))
  {
    var after := Step(l, s, e);
    forall i | 0 <= i < |l.list|
      ensures Get(after.clusters, l.list[i].id) == Expected(l, after.applied, i)
    {
      assert Get(s.clusters, l.list[i].id) == Expected(l, s.applied, i);
      assert IsListed(l.list, l.list[i].id);
      if e.Answer? && i != e.task {
        assert l.list[i].id != l.list[e.task].id;
      }
    }
  }

  lemma StepKeepsOthers(l: Load, s: State, e: Event)
    requires IsLoad(l) && Allowed(l, s, e) && (s.phase.Done? ==> s.waiting == {}) && OthersFit(l, s)
    ensures OthersFit(l, Step(l, s, e))
  {
    if e.Answer? {
      assert IsListed(l.list, l.list[e.task].id);
    }
  }

  lemma InitialIsValid(l: Load)
    requires IsLoad(l)
    ensures Valid(l, Initial(l))
  {}

  lemma {:induction false} RunKeepsValid(l: Load, s: State, events: seq<Event>)
    requires IsLoad(l) && Valid(l, s) && Happens(l, s, events)
    ensures Valid(l, Run(l, s, events))
    decreases |events|
  {
    if events != [] {
      StepKeepsPool(l, s, events[0]);
      StepKeepsApplied(l, s, events[0]);
      StepKeepsMap(l, s, events[0]);
      StepKeepsOthers(l, s, events[0]);
      RunKeepsValid(l, Step(l, s, events[0]), events[1..]);
    }
  }

  /** In every run, stopped or not, at most fifty checks wait for an answer. */
  lemma AtMostFiftyInFlight(l: Load, events: seq<Event>)
    requires IsLoad(l) && Happens(l, Initial(l), events)
    ensures |Run(l, Initial(l), events).waiting| <= 50
  {
    InitialIsValid(l);
    RunKeepsValid(l, Initial(l), events);
    var end := Run(l, Initial(l), events);
    ElementsAreFew(end.wip);
    SubsetIsSmaller(end.waiting, Elements(end.wip));
  }

  /** A load runs until it is stopped, which may be at any moment. */
  lemma {:induction false} RunsUntilStopped(l: Load, s: State, events: seq<Event>)
    requires IsLoad(l) && Happens(l, s, events)
    ensures Run(l, s, events).running <==> s.running && Stop !in events
    ensures Allowed(l, s, Stop)
    decreases |events|
  {
    if events != [] {
      RunsUntilStopped(l, Step(l, s, events[0]), events[1..]);
      assert events == [events[0]] + events[1..];
    }
  }

  lemma StoppedStepKeepsMap(l: Load, s: State, e: Event)
    requires IsLoad(l) && Allowed(l, s, e) && !s.running
    ensures !Step(l, s, e).running
    ensures Step(l, s, e).clusters == if e.Finish? then OnlyListed(s.clusters, l.list) else s.clusters
  {}

  /** From a stop on, no answer changes the map; at the end, the clusters that are
      not listed go. */
  lemma {:induction false} StoppedLoadKeepsMap(l: Load, s: State, events: seq<Event>, id: string)
    requires IsLoad(l) && Happens(l, s, events) && !s.running && !s.phase.Done?
    ensures var end := Run(l, s, events);
            Get(end.clusters, id) ==
            if end.phase.Done? && (forall c | c in l.list :: c.id != id) then None else Get(s.clusters, id)
    decreases |events|
  {
    if events != [] {
      var next := Step(l, s, events[0]);
      StoppedStepKeepsMap(l, s, events[0]);
      if events[0].Finish? {
        DoneStaysDone(l, next, events[1..]);
        assert IsListed(l.list, id) <==> exists c :: c in l.list && c.id == id;
      } else {
        StoppedLoadKeepsMap(l, next, events[1..], id);
      }
    }
  }

  lemma {:induction false} DoneStaysDone(l: Load, s: State, events: seq<Event>)
    requires IsLoad(l) && Happens(l, s, events) && !s.running && s.phase.Done?
    ensures Run(l, s, events).phase.Done? && Run(l, s, events).clusters == s.clusters
    decreases |events|
  {
    if events != [] {
      DoneStaysDone(l, Step(l, s, events[0]), events[1..]);
    }
  }

  /** In every run, the final map depends only on which answers came before a stop:
      a check that said keep puts its cluster in, one that said drop takes it out,
      and one that failed, or did not answer in time, leaves it as it was. */
  lemma FinalMap(l: Load, events: seq<Event>, id: string)
    requires IsLoad(l) && Happens(l, Initial(l), events) && Run(l, Initial(l), events).phase.Done?
    ensures var end := Run(l, Initial(l), events);
            if exists c :: c in l.list && c.id == id then
              exists i | 0 <= i < |l.list| :: l.list[i].id == id &&
                Get(end.clusters, id) == (if i in end.applied && l.verdicts[i] == Keep then Some(l.list[i])
                                          else if i in end.applied && l.verdicts[i] == Drop then None
                                          else Get(l.before, id))
            else id !in end.clusters
  {
    InitialIsValid(l);
    RunKeepsValid(l, Initial(l), events);
    var end := Run(l, Initial(l), events);
    if exists c :: c in l.list && c.id == id {
      var i :| 0 <= i < |l.list| && l.list[i].id == id;
      assert Get(end.clusters, l.list[i].id) == Expected(l, end.applied, i);
    } else {
      assert !IsListed(l.list, id);
      assert Get(end.clusters, id) == None;
    }
  }

  /** When nobody stops it, a load ends, in whatever order the checks answer, with
      the listed clusters whose check said keep and those whose check failed and
      that were there before, and nothing else. */
  lemma UninterruptedLoad(l: Load, events: seq<Event>, id: string)
    requires IsLoad(l) && Happens(l, Initial(l), events) && Stop !in events
    requires Run(l, Initial(l), events).phase.Done?
    ensures (forall c | c in l.list :: c.id != id) ==> id !in Run(l, Initial(l), events).clusters
    ensures forall i | 0 <= i < |l.list| && l.list[i].id == id ::
              Get(Run(l, Initial(l), events).clusters, id) ==
              match l.verdicts[i]
              case Keep => Some(l.list[i])
              case Drop => None
              case Failure => Get(l.before, id)
  {
    InitialIsValid(l);
    RunKeepsValid(l, Initial(l), events);
    RunsUntilStopped(l, Initial(l), events);
    var end := Run(l, Initial(l), events);
    forall i | 0 <= i < |l.list|
      ensures i in end.applied && Get(end.clusters, l.list[i].id) == Expected(l, end.applied, i)
    {}
    if !IsListed(l.list, id) {
      assert Get(end.clusters, id) == None;
    }
  }

  lemma OrderDoesNotMatter(l: Load, one: seq<Event>, other: seq<Event>)
    requires IsLoad(l) && Happens(l, Initial(l), one) && Happens(l, Initial(l), other)
    requires Stop !in one && Run(l, Initial(l), one).phase.Done?
    requires Stop !in other && Run(l, Initial(l), other).phase.Done?
    ensures Run(l, Initial(l), one).clusters == Run(l, Initial(l), other).clusters
  {
    forall id
      ensures Get(Run(l, Initial(l), one).clusters, id) == Get(Run(l, Initial(l), other).clusters, id)
    {
      UninterruptedLoad(l, one, id);
      UninterruptedLoad(l, other, id);
    }
    SameMaps(Run(l, Initial(l), one).clusters, Run(l, Initial(l), other).clusters);
  }

  // ----------------------------------------------------------- every load ends

  function StepsLeft(l: Load, s: State): int {
    4 * (|l.list| - s.launched) + |s.wip| + |s.waiting| +
    match s.phase
    case AtTest => 3
    case Passed => 2
    case Draining => 1
    case Done => 0
  }

  /** Every step but a stop brings the load nearer to its end. */
  lemma StepAdvances(l: Load, s: State, e: Event)
    requires IsLoad(l) && Allowed(l, s, e) && PoolValid(l, s) && !e.Stop?
    ensures 0 <= StepsLeft(l, Step(l, s, e)) < StepsLeft(l, s)
  {
    match e
    case Launch =>
      assert s.launched !in s.waiting by {
        assert forall t | t in Elements(s.wip) :: t < s.launched;
      }
    case Splice(task) =>
      SplicedElements(s.wip, task);
    case _ =>
  }

  /** Until the load is done, some step can be taken: the pool never blocks itself. */
  lemma LoadIsNeverStuck(l: Load, s: State) returns (e: Event)
    requires IsLoad(l) && PoolValid(l, s) && !s.phase.Done?
    ensures Allowed(l, s, e) && !e.Stop?
  {
    if s.phase.AtTest? {
      e := Test;
    } else if s.waiting != {} {
      var task :| task in s.waiting;
      assert task in Elements(s.wip);
      e := Answer(task);
    } else if s.phase.Draining? {
      e := Finish;
    } else if |s.wip| == MAX_CONCURRENT {
      e := Splice(s.wip[0]);
    } else {
      e := Launch;
    }
  }

  // ------------------------------------------------------ without the filter

  /** The unfiltered load is the filtered one in which every check says keep. */
  lemma {:induction false} ListedMapHoldsList(list: seq<Cluster>, i: nat)
    requires Distinct(list) && i < |list|
    ensures Get(ListedMap(list), list[i].id) == Some(list[i])
  {
    var front := list[..|list| - 1];
    if i < |front| {
      ListedMapHoldsList(front, i);
      assert front[i] == list[i];
    }
  }

  lemma UnfilteredLoad(l: Load, events: seq<Event>)
    requires IsLoad(l) && Happens(l, Initial(l), events)
    requires forall i | 0 <= i < |l.verdicts| :: l.verdicts[i].Keep?
    requires Stop !in events && Run(l, Initial(l), events).phase.Done?
    ensures Run(l, Initial(l), events).clusters == ListedMap(l.list)
  {
    var end := Run(l, Initial(l), events);
    forall id
      ensures Get(end.clusters, id) == Get(ListedMap(l.list), id)
    {
      UninterruptedLoad(l, events, id);
      ListedMapIsListed(l.list);
      if IsListed(l.list, id) {
        var i :| 0 <= i < |l.list| && l.list[i].id == id;
        ListedMapHoldsList(l.list, i);
      }
    }
    SameMaps(end.clusters, ListedMap(l.list));
  }
}
