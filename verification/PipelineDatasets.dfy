/** The datasets and schemas read from a pipeline's run history
    (`extractPipelineDatasets` of
    packages/databricks-vscode/src/bundle/BundlePipelinesManager.ts): newest run
    first, up to the newest completed update of the whole graph. */
module PipelineDatasets {
  import opened Wrappers

  datatype Field = Field(name: Option<string>, dataType: Option<string>)

  /** `schema` is `None` when the definition has no array there. */
  datatype Definition = Definition(datasetType: Option<string>, schema: Option<seq<Field>>)

  datatype Event = Event(datasetName: Option<string>, definition: Option<Definition>)

  datatype UpdateInfo = UpdateInfo(
    creationTime: Option<int>, completed: bool, fullRefreshSelection: seq<string>, refreshSelection: seq<string>)

  datatype RunState = RunState(data: Option<UpdateInfo>, events: seq<Event>)

  datatype Column = Column(name: string, typ: string)

  datatype Dataset = Dataset(name: string, typ: string, schema: seq<Column>)

  datatype Resolved = Resolved(datasets: set<string>, schemas: map<string, Dataset>)

  predicate IsFullGraphUpdate(update: Option<UpdateInfo>) {
    update.Some? && update.value.completed &&
    update.value.fullRefreshSelection == [] && update.value.refreshSelection == []
  }

  function Time(run: RunState): int {
    if run.data.Some? then run.data.value.creationTime.GetOr(0) else 0
  }

  function ColumnOf(field: Field): Column {
    Column(field.name.GetOr(""), field.dataType.GetOr(""))
  }

  function Columns(fields: seq<Field>): seq<Column> {
    seq(|fields|, i requires 0 <= i < |fields| => ColumnOf(fields[i]))
  }

  /** The event names the dataset and defines it. */
  predicate Defines(event: Event, name: string) {
    event.datasetName == Some(name) && name != "" && event.definition.Some?
  }

  /** A table or a materialised view; plain views do not count. */
  predicate IsDatasetEvent(event: Event, name: string) {
    Defines(event, name) &&
    event.definition.value.datasetType.GetOr("") != "" && event.definition.value.datasetType.GetOr("") != "VIEW"
  }

  /** The schema the event gives the dataset. */
  function SchemaOf(event: Event, name: string): Option<Dataset> {
    if Defines(event, name) && event.definition.value.schema.GetOr([]) != [] then
      Some(Dataset(name, event.definition.value.datasetType.GetOr(""), Columns(event.definition.value.schema.value)))
    else None
  }

  // ------------------------------------------------------------ the function

  /** One event of one run. */
  function AddEvent(r: Resolved, event: Event): Resolved {
    if event.datasetName.GetOr("") == "" || event.definition.None? then r
    else
      var name := event.datasetName.value;
      Resolved(
        if IsDatasetEvent(event, name) then r.datasets + {name} else r.datasets,
        if SchemaOf(event, name).Some? then r.schemas[name := SchemaOf(event, name).value] else r.schemas)
  }

  function AddEvents(r: Resolved, events: seq<Event>): Resolved {
    if events == [] then r else AddEvent(AddEvents(r, events[..|events| - 1]), events[|events| - 1])
  }

  /** The runs in the given order, up to the first update of the whole graph. */
  function Extract(r: Resolved, runs: seq<RunState>): Resolved
    decreases |runs|
  {
    if runs == [] then r
    else
      var next := AddEvents(r, runs[0].events);
      if IsFullGraphUpdate(runs[0].data) then next else Extract(next, runs[1..])
  }

  /** A stable sort, newest first. */
  function Insert(sorted: seq<RunState>, run: RunState): seq<RunState> {
    if sorted == [] || Time(sorted[0]) < Time(run) then [run] + sorted
    else [sorted[0]] + Insert(sorted[1..], run)
  }

  function NewestFirst(runs: seq<RunState>): seq<RunState> {
    if runs == [] then [] else Insert(NewestFirst(runs[..|runs| - 1]), runs[|runs| - 1])
  }

  const NOTHING := Resolved({}, map[])

  method ExtractPipelineDatasets(runs: seq<RunState>) returns (r: Resolved)
    ensures r == Extract(NOTHING, NewestFirst(runs))
  {
    var datasets: set<string> := {};
    var schemas: map<string, Dataset> := map[];
    var sorted := NewestFirst(runs);
    for i := 0 to |sorted|
      invariant Extract(Resolved(datasets, schemas), sorted[i..]) == Extract(NOTHING, sorted)
    {
      ghost var before := Resolved(datasets, schemas);
      var events := sorted[i].events;
      for j := 0 to |events|
        invariant Resolved(datasets, schemas) == AddEvents(before, events[..j])
      {
        assert events[..j + 1][..j] == events[..j];
        datasets, schemas := AddOne(datasets, schemas, events[j]);
      }
      assert events[..|events|] == events;
      assert sorted[i..][1..] == sorted[i + 1..];
      if IsFullGraphUpdate(sorted[i].data) {
        return Resolved(datasets, schemas);
      }
    }
    return Resolved(datasets, schemas);
  }

  /** The body of the inner loop. */
  method AddOne(datasets: set<string>, schemas: map<string, Dataset>, event: Event)
    returns (datasets': set<string>, schemas': map<string, Dataset>)
    ensures Resolved(datasets', schemas') == AddEvent(Resolved(datasets, schemas), event)
  {
    datasets', schemas' := datasets, schemas;
    if event.datasetName.GetOr("") == "" || event.definition.None? {
      return;
    }
    var name, definition := event.datasetName.value, event.definition.value;
    var datasetType := definition.datasetType.GetOr("");
    if datasetType != "" && datasetType != "VIEW" {
      datasets' := datasets' + {name};
    }
    if definition.schema.Some? && |definition.schema.value| > 0 {
      schemas' := schemas'[name := Dataset(name, datasetType, Columns(definition.schema.value))];
    }
  }

  // --------------------------------------------------- what it says of a dataset

  /** Some event of the run counts the dataset. */
  predicate Counts(events: seq<Event>, name: string) {
    exists i | 0 <= i < |events| :: IsDatasetEvent(events[i], name)
  }

  /** The schema in the last event that gives one. */
  function LastSchema(events: seq<Event>, name: string): Option<Dataset> {
    if events == [] then None
    else
      var here := SchemaOf(events[|events| - 1], name);
      if here.Some? then here else LastSchema(events[..|events| - 1], name)
  }

  lemma {:induction false} EventsAdd(r: Resolved, events: seq<Event>, name: string)
    ensures name in AddEvents(r, events).datasets <==> name in r.datasets || Counts(events, name)
    ensures Get(AddEvents(r, events).schemas, name) ==
            if LastSchema(events, name).Some? then LastSchema(events, name) else Get(r.schemas, name)
  {
    if events != [] {
      var front, last := events[..|events| - 1], events[|events| - 1];
      EventsAdd(r, front, name);
      CountsByParts(events, name);
    }
  }

  /** What one event says: a named dataset of a type other than "VIEW" counts; a
      schema with fields is kept, with a text missing in it left empty. */
  lemma EventSays(r: Resolved, event: Event, name: string)
    ensures name in AddEvent(r, event).datasets <==>
      || name in r.datasets
      || (event.datasetName == Some(name) && name != "" && event.definition.Some? &&
          event.definition.value.datasetType.Some? && event.definition.value.datasetType.value !in {"", "VIEW"})
    ensures
      if event.datasetName == Some(name) && name != "" && event.definition.Some? &&
         event.definition.value.schema.Some? && event.definition.value.schema.value != []
      then
        && name in AddEvent(r, event).schemas
        && IsSchemaOf(AddEvent(r, event).schemas[name], name, event.definition.value)
      else Get(AddEvent(r, event).schemas, name) == Get(r.schemas, name)
  {}

  predicate IsTextOf(text: string, source: Option<string>) {
    (source.Some? && text == source.value) || (source == None && text == "")
  }

  predicate IsSchemaOf(dataset: Dataset, name: string, definition: Definition)
    requires definition.schema.Some?
  {
    && dataset.name == name && IsTextOf(dataset.typ, definition.datasetType)
    && |dataset.schema| == |definition.schema.value|
    && forall i | 0 <= i < |dataset.schema| ::
         && IsTextOf(dataset.schema[i].name, definition.schema.value[i].name)
         && IsTextOf(dataset.schema[i].typ, definition.schema.value[i].dataType)
  }

  /** The events of a run are taken in their order, so the last schema wins. */
  lemma EventsInOrder(r: Resolved, a: Event, b: Event)
    ensures AddEvents(r, [a, b]) == AddEvent(AddEvent(r, a), b)
  {
    assert [a, b][..1] == [a] && [a][..0] == [];
    assert AddEvents(r, [a]) == AddEvent(r, a);
  }

  lemma CountsByParts(events: seq<Event>, name: string)
    requires events != []
    ensures Counts(events, name) <==>
            Counts(events[..|events| - 1], name) || IsDatasetEvent(events[|events| - 1], name)
  {
    var front := events[..|events| - 1];
    if Counts(front, name) {
      var i :| 0 <= i < |front| && IsDatasetEvent(front[i], name);
      assert IsDatasetEvent(events[i], name);
    }
    if Counts(events, name) {
      var i :| 0 <= i < |events| && IsDatasetEvent(events[i], name);
      assert i < |front| ==> IsDatasetEvent(front[i], name);
    }
  }

  // ---------------------------------------------- the same, without any order

  /** No newer run is a completed update of the whole graph. */
  ghost predicate InWindow(runs: set<RunState>, run: RunState) {
    run in runs && forall newer | newer in runs && Time(newer) > Time(run) :: !IsFullGraphUpdate(newer.data)
  }

  ghost predicate IsDataset(runs: set<RunState>, name: string) {
    exists run :: InWindow(runs, run) && Counts(run.events, name)
  }

  /** The run is the oldest in the window to give the dataset a schema. */
  ghost predicate IsOldestSchema(runs: set<RunState>, run: RunState, name: string) {
    && InWindow(runs, run) && LastSchema(run.events, name).Some?
    && forall older | InWindow(runs, older) && Time(older) < Time(run) :: LastSchema(older.events, name).None?
  }

  /** Some completed update of the whole graph is newer. */
  ghost predicate Hidden(runs: set<RunState>, time: int) {
    exists newer :: newer in runs && Time(newer) > time && IsFullGraphUpdate(newer.data)
  }

  /** Runs of one creation time are all older than an update of the whole graph. */
  ghost predicate TiesAreHidden(all: set<RunState>, runs: seq<RunState>) {
    forall i, j | 0 <= i < j < |runs| && Time(runs[i]) == Time(runs[j]) :: Hidden(all, Time(runs[i]))
  }

  ghost predicate Descends(all: set<RunState>, runs: seq<RunState>) {
    TiesAreHidden(all, runs) && forall i, j | 0 <= i < j < |runs| :: Time(runs[i]) >= Time(runs[j])
  }

  ghost predicate Descending(runs: seq<RunState>) {
    Descends(Elements(runs), runs)
  }

  ghost predicate OnlyHiddenTies(runs: seq<RunState>) {
    TiesAreHidden(Elements(runs), runs)
  }

  function Elements(runs: seq<RunState>): set<RunState> {
    set run | run in runs
  }

  lemma ElementsByParts(runs: seq<RunState>)
    requires runs != []
    ensures Elements(runs) == {runs[0]} + Elements(runs[1..])
  {
    assert runs == [runs[0]] + runs[1..];
  }

  /** Nothing is hidden from the newest run, so nothing ties with it. */
  lemma FirstIsNewest(runs: seq<RunState>)
    requires runs != [] && Descending(runs)
    ensures forall other | other in Elements(runs[1..]) :: Time(other) < Time(runs[0])
  {
    assert forall newer | newer in Elements(runs) :: Time(newer) <= Time(runs[0]);
    assert !Hidden(Elements(runs), Time(runs[0]));
    assert forall i | 1 <= i < |runs| :: Time(runs[i]) < Time(runs[0]) && runs[i] == runs[1..][i - 1];
  }

  lemma RestDescends(runs: seq<RunState>)
    requires runs != [] && Descending(runs) && !IsFullGraphUpdate(runs[0].data)
    ensures Descending(runs[1..])
  {
    var rest := runs[1..];
    ElementsByParts(runs);
    assert forall i | 0 <= i < |rest| :: rest[i] == runs[i + 1];
    forall i, j | 0 <= i < j < |rest| && Time(rest[i]) == Time(rest[j])
      ensures Hidden(Elements(rest), Time(rest[i]))
    {
      assert Time(runs[i + 1]) == Time(runs[j + 1]);
      var newer :| newer in Elements(runs) && Time(newer) > Time(runs[i + 1]) && IsFullGraphUpdate(newer.data);
      assert newer in Elements(rest);
    }
  }

  /** The window of a descending list is its first run and, unless that is a full
      update, the window of the rest. */
  lemma WindowByParts(runs: seq<RunState>, run: RunState)
    requires runs != [] && Descending(runs)
    ensures InWindow(Elements(runs), run) <==>
            run == runs[0] || (!IsFullGraphUpdate(runs[0].data) && InWindow(Elements(runs[1..]), run))
  {
    ElementsByParts(runs);
    FirstIsNewest(runs);
  }

  lemma {:induction false} DatasetsOfDescending(r: Resolved, runs: seq<RunState>, name: string)
    requires Descending(runs)
    ensures name in Extract(r, runs).datasets <==> name in r.datasets || IsDataset(Elements(runs), name)
    decreases |runs|
  {
    if runs != [] {
      EventsAdd(r, runs[0].events, name);
      if !IsFullGraphUpdate(runs[0].data) {
        RestDescends(runs);
        DatasetsOfDescending(AddEvents(r, runs[0].events), runs[1..], name);
      }
      IsDatasetByParts(runs, name);
    }
  }

  lemma IsDatasetByParts(runs: seq<RunState>, name: string)
    requires runs != [] && Descending(runs)
    ensures IsDataset(Elements(runs), name) <==>
            Counts(runs[0].events, name) ||
            (!IsFullGraphUpdate(runs[0].data) && IsDataset(Elements(runs[1..]), name))
  {
    forall run
      ensures InWindow(Elements(runs), run) <==>
              run == runs[0] || (!IsFullGraphUpdate(runs[0].data) && InWindow(Elements(runs[1..]), run))
    {
      WindowByParts(runs, run);
    }
    if Counts(runs[0].events, name) {
      assert InWindow(Elements(runs), runs[0]);
    }
  }

  /** What the window says about the schema of a dataset. */
  ghost predicate SchemaFits(runs: set<RunState>, name: string, found: Option<Dataset>, otherwise: Option<Dataset>) {
    if exists run :: InWindow(runs, run) && LastSchema(run.events, name).Some? then
      exists run :: IsOldestSchema(runs, run, name) && found == LastSchema(run.events, name)
    else found == otherwise
  }

  lemma {:induction false} SchemasOfDescending(r: Resolved, runs: seq<RunState>, name: string)
    requires Descending(runs)
    ensures SchemaFits(Elements(runs), name, Get(Extract(r, runs).schemas, name), Get(r.schemas, name))
    decreases |runs|
  {
    if runs != [] {
      var next, found := AddEvents(r, runs[0].events), Get(Extract(r, runs).schemas, name);
      EventsAdd(r, runs[0].events, name);
      if !IsFullGraphUpdate(runs[0].data) {
        RestDescends(runs);
        SchemasOfDescending(next, runs[1..], name);
      }
      SchemaByParts(runs, name, found, Get(r.schemas, name));
    }
  }

  lemma SchemaByParts(
      runs: seq<RunState>, name: string, found: Option<Dataset>, otherwise: Option<Dataset>)
    requires runs != [] && Descending(runs)
    requires var here := LastSchema(runs[0].events, name); var next := if here.Some? then here else otherwise;
             if IsFullGraphUpdate(runs[0].data) then found == next
             else SchemaFits(Elements(runs[1..]), name, found, next)
    ensures SchemaFits(Elements(runs), name, found, otherwise)
  {
    var all, rest := Elements(runs), Elements(runs[1..]);
    forall run
      ensures InWindow(all, run) <==>
              run == runs[0] || (!IsFullGraphUpdate(runs[0].data) && InWindow(rest, run))
    {
      WindowByParts(runs, run);
    }
    ElementsByParts(runs);
    FirstIsNewest(runs);
    if !IsFullGraphUpdate(runs[0].data) && exists run :: InWindow(rest, run) && LastSchema(run.events, name).Some? {
      var run :| IsOldestSchema(rest, run, name) && found == LastSchema(run.events, name);
      assert IsOldestSchema(all, run, name);
    } else if LastSchema(runs[0].events, name).Some? {
      assert IsOldestSchema(all, runs[0], name);
    }
  }

  // ---------------------------------------------------------------- the sort

  lemma {:induction false} InsertHolds(sorted: seq<RunState>, run: RunState)
    ensures forall other :: other in Insert(sorted, run) <==> other in sorted || other == run
  {
    if sorted != [] && Time(sorted[0]) >= Time(run) {
      InsertHolds(sorted[1..], run);
      assert sorted == [sorted[0]] + sorted[1..];
    }
  }

  lemma {:induction false} SortHolds(runs: seq<RunState>)
    ensures forall run :: run in NewestFirst(runs) <==> run in runs
  {
    if runs != [] {
      var front, last := runs[..|runs| - 1], runs[|runs| - 1];
      SortHolds(front);
      InsertHolds(NewestFirst(front), last);
      assert runs == front + [last];
    }
  }

  lemma {:induction false} InsertKeepsOrder(all: set<RunState>, sorted: seq<RunState>, run: RunState)
    requires Descends(all, sorted)
    requires forall i | 0 <= i < |sorted| && Time(sorted[i]) == Time(run) :: Hidden(all, Time(run))
    ensures Descends(all, Insert(sorted, run))
  {
    if sorted == [] || Time(sorted[0]) < Time(run) {
      PutFirstDescends(all, run, sorted);
    } else {
      var rest := sorted[1..];
      assert forall i | 0 <= i < |rest| :: rest[i] == sorted[i + 1];
      InsertKeepsOrder(all, rest, run);
      InsertHolds(rest, run);
      forall i | 0 <= i < |Insert(rest, run)|
        ensures Time(Insert(rest, run)[i]) <= Time(sorted[0])
        ensures Time(Insert(rest, run)[i]) == Time(sorted[0]) ==> Hidden(all, Time(sorted[0]))
      {
        assert Insert(rest, run)[i] in Elements(Insert(rest, run));
      }
      PutFirstDescends(all, sorted[0], Insert(rest, run));
    }
  }

  lemma PutFirstDescends(all: set<RunState>, first: RunState, rest: seq<RunState>)
    requires Descends(all, rest)
    requires forall i | 0 <= i < |rest| :: Time(rest[i]) <= Time(first)
    requires forall i | 0 <= i < |rest| && Time(rest[i]) == Time(first) :: Hidden(all, Time(first))
    ensures Descends(all, [first] + rest)
  {
    var r := [first] + rest;
    assert forall i | 1 <= i < |r| :: r[i] == rest[i - 1];
  }

  lemma {:induction false} SortDescends(all: set<RunState>, runs: seq<RunState>)
    requires TiesAreHidden(all, runs)
    ensures Descends(all, NewestFirst(runs))
  {
    if runs != [] {
      var front, last := runs[..|runs| - 1], runs[|runs| - 1];
      assert forall i | 0 <= i < |front| :: front[i] == runs[i];
      SortDescends(all, front);
      SortHolds(front);
      var sorted := NewestFirst(front);
      forall i | 0 <= i < |sorted| && Time(sorted[i]) == Time(last)
        ensures Hidden(all, Time(last))
      {
        assert sorted[i] in front;
        var k :| 0 <= k < |front| && front[k] == sorted[i];
        assert Time(runs[k]) == Time(runs[|runs| - 1]);
      }
      InsertKeepsOrder(all, sorted, last);
    }
  }

  lemma SortKeepsRuns(runs: seq<RunState>)
    requires OnlyHiddenTies(runs)
    ensures Descending(NewestFirst(runs)) && Elements(NewestFirst(runs)) == Elements(runs)
  {
    SortDescends(Elements(runs), runs);
    SortHolds(runs);
  }

  // ------------------------------------------------------------- the theorems

  /** The datasets, said without an order: those counted by a run in the window. */
  lemma DatasetsAreOfWindow(runs: seq<RunState>, name: string)
    requires OnlyHiddenTies(runs)
    ensures name in Extract(NOTHING, NewestFirst(runs)).datasets <==> IsDataset(Elements(runs), name)
  {
    SortKeepsRuns(runs);
    DatasetsOfDescending(NOTHING, NewestFirst(runs), name);
  }

  /** The schemas, said without an order: for each dataset that of the oldest run
      in the window that gives one. */
  lemma SchemasAreOfWindow(runs: seq<RunState>, name: string)
    requires OnlyHiddenTies(runs)
    ensures SchemaFits(Elements(runs), name, Get(Extract(NOTHING, NewestFirst(runs)).schemas, name), None)
  {
    SortKeepsRuns(runs);
    SchemasOfDescending(NOTHING, NewestFirst(runs), name);
  }

  ghost predicate TimesIdentify(runs: set<RunState>) {
    forall a, b | InWindow(runs, a) && InWindow(runs, b) && Time(a) == Time(b) :: a == b
  }

  lemma SchemaIsDetermined(
      runs: set<RunState>, name: string, one: Option<Dataset>, other: Option<Dataset>)
    requires TimesIdentify(runs)
    requires SchemaFits(runs, name, one, None) && SchemaFits(runs, name, other, None)
    ensures one == other
  {
    if exists run :: InWindow(runs, run) && LastSchema(run.events, name).Some? {
      var a :| IsOldestSchema(runs, a, name) && one == LastSchema(a.events, name);
      var b :| IsOldestSchema(runs, b, name) && other == LastSchema(b.events, name);
      assert InWindow(runs, a) && InWindow(runs, b);
      assert !(Time(a) < Time(b)) && !(Time(b) < Time(a));
    }
  }

  ghost predicate SameWindow(a: set<RunState>, b: set<RunState>) {
    forall run :: InWindow(a, run) <==> InWindow(b, run)
  }

  /** The result depends on nothing but the runs in the window. */
  lemma OnlyWindowMatters(one: seq<RunState>, other: seq<RunState>)
    requires OnlyHiddenTies(one) && OnlyHiddenTies(other) && SameWindow(Elements(one), Elements(other))
    ensures Extract(NOTHING, NewestFirst(one)) == Extract(NOTHING, NewestFirst(other))
  {
    var a, b := Extract(NOTHING, NewestFirst(one)), Extract(NOTHING, NewestFirst(other));
    forall name
      ensures name in a.datasets <==> name in b.datasets
      ensures Get(a.schemas, name) == Get(b.schemas, name)
    {
      DatasetsAreOfWindow(one, name);
      DatasetsAreOfWindow(other, name);
      SchemasAreOfWindow(one, name);
      SchemasAreOfWindow(other, name);
      SchemaFitsBoth(Elements(one), Elements(other), name, Get(b.schemas, name));
      HiddenTiesIdentify(one);
      SchemaIsDetermined(Elements(one), name, Get(a.schemas, name), Get(b.schemas, name));
    }
    SameMaps(a.schemas, b.schemas);
    assert a.datasets == b.datasets;
  }

  lemma SchemaFitsBoth(
      one: set<RunState>, other: set<RunState>, name: string, found: Option<Dataset>)
    requires SameWindow(one, other) && SchemaFits(other, name, found, None)
    ensures SchemaFits(one, name, found, None)
  {
    if exists run :: InWindow(other, run) && LastSchema(run.events, name).Some? {
      var run :| IsOldestSchema(other, run, name) && found == LastSchema(run.events, name);
      assert IsOldestSchema(one, run, name);
    }
  }

  lemma HiddenTiesIdentify(runs: seq<RunState>)
    requires OnlyHiddenTies(runs)
    ensures TimesIdentify(Elements(runs))
  {
    var all := Elements(runs);
    forall a, b | InWindow(all, a) && InWindow(all, b) && Time(a) == Time(b)
      ensures a == b
    {
      var i :| 0 <= i < |runs| && runs[i] == a;
      var j :| 0 <= j < |runs| && runs[j] == b;
      assert !Hidden(all, Time(runs[i])) && !Hidden(all, Time(runs[j]));
    }
  }

  /** The order in which the runs came does not matter, if only runs that an update
      of the whole graph hides have a creation time in common. */
  lemma OrderDoesNotMatter(one: seq<RunState>, other: seq<RunState>)
    requires OnlyHiddenTies(one) && OnlyHiddenTies(other) && Elements(one) == Elements(other)
    ensures Extract(NOTHING, NewestFirst(one)) == Extract(NOTHING, NewestFirst(other))
  {
    OnlyWindowMatters(one, other);
  }

  // ------------------------------------------------------------- two runs

  /** The creation time is that of the update, or 0. */
  predicate IsCreatedAt(run: RunState, time: int) {
    match run.data
    case None => time == 0
    case Some(update) => update.creationTime == Some(time) || (update.creationTime == None && time == 0)
  }

  /** The newer run is read first. */
  lemma NewerComesFirst(a: RunState, b: RunState, timeOfA: int, timeOfB: int)
    requires IsCreatedAt(a, timeOfA) && IsCreatedAt(b, timeOfB)
    ensures NewestFirst([a, b]) == if timeOfA >= timeOfB then [a, b] else [b, a]
  {
    assert [a, b][..1] == [a] && [a][..0] == [];
    assert NewestFirst([a]) == Insert([], a) == [a];
    assert [a][1..] == [] && Insert([], b) == [b];
    assert Insert([a], b) == if timeOfA >= timeOfB then [a] + [b] else [b] + [a];
    assert [a] + [b] == [a, b] && [b] + [a] == [b, a];
  }

  /** A run hides the older ones exactly when it is a completed update with nothing
      selected for it. */
  lemma HidesOlderIff(r: Resolved, newer: RunState, older: RunState)
    ensures Extract(r, [newer, older]) ==
            if newer.data.Some? && newer.data.value.completed &&
               newer.data.value.fullRefreshSelection == newer.data.value.refreshSelection == []
            then AddEvents(r, newer.events) else AddEvents(AddEvents(r, newer.events), older.events)
  {
    assert [newer, older][1..] == [older] && [older][1..] == [];
    var next := AddEvents(r, newer.events);
    assert Extract(next, [older]) == AddEvents(next, older.events);
  }

  // ----------------------------------------------------- where the sort puts a run

  datatype Age = Newer | Tied | Older

  function AgeOf(run: RunState, time: int): Age {
    if Time(run) > time then Newer else if Time(run) == time then Tied else Older
  }

  /** The runs of that age, in the order in which they came. */
  function OfAge(runs: seq<RunState>, time: int, age: Age): seq<RunState> {
    if runs == [] then []
    else
      var front, last := OfAge(runs[..|runs| - 1], time, age), runs[|runs| - 1];
      if AgeOf(last, time) == age then front + [last] else front
  }

  lemma {:induction false} OfAgeConcat(a: seq<RunState>, b: seq<RunState>, time: int, age: Age)
    ensures OfAge(a + b, time, age) == OfAge(a, time, age) + OfAge(b, time, age)
    decreases |b|
  {
    if b == [] {
      assert a + b == a;
    } else {
      assert (a + b)[..|a + b| - 1] == a + b[..|b| - 1];
      OfAgeConcat(a, b[..|b| - 1], time, age);
    }
  }

  lemma {:induction false} OfAgeHolds(runs: seq<RunState>, time: int, age: Age)
    ensures forall run :: run in OfAge(runs, time, age) <==> run in runs && AgeOf(run, time) == age
  {
    if runs != [] {
      OfAgeHolds(runs[..|runs| - 1], time, age);
      assert runs == runs[..|runs| - 1] + [runs[|runs| - 1]];
    }
  }

  lemma {:induction false} InsertAfter(front: seq<RunState>, back: seq<RunState>, run: RunState)
    requires forall other | other in front :: Time(other) >= Time(run)
    ensures Insert(front + back, run) == front + Insert(back, run)
  {
    if front == [] {
      assert front + back == back;
    } else {
      assert (front + back)[1..] == front[1..] + back;
      InsertAfter(front[1..], back, run);
    }
  }

  lemma {:induction false} InsertBefore(front: seq<RunState>, back: seq<RunState>, run: RunState)
    requires forall other | other in back :: Time(other) < Time(run)
    ensures Insert(front + back, run) == Insert(front, run) + back
  {
    if front == [] {
      assert front + back == back;
    } else if Time(front[0]) >= Time(run) {
      assert (front + back)[1..] == front[1..] + back;
      InsertBefore(front[1..], back, run);
    }
  }

  /** The sort puts the newer runs before a time, the older ones behind it, and
      leaves those of that very time in the order in which they came. */
  lemma {:induction false} SortAround(runs: seq<RunState>, time: int)
    ensures NewestFirst(runs) ==
            NewestFirst(OfAge(runs, time, Newer)) + OfAge(runs, time, Tied) + NewestFirst(OfAge(runs, time, Older))
  {
    if runs != [] {
      var front, last := runs[..|runs| - 1], runs[|runs| - 1];
      SortAround(front, time);
      InsertAround(front, time, last);
      var part := OfAge(front, time, AgeOf(last, time));
      assert (part + [last])[..|part|] == part;
    }
  }

  lemma InsertAround(runs: seq<RunState>, time: int, run: RunState)
    ensures
      var newer, tied, older :=
        NewestFirst(OfAge(runs, time, Newer)), OfAge(runs, time, Tied), NewestFirst(OfAge(runs, time, Older));
      Insert(newer + tied + older, run) == Around(newer, tied, older, time, run)
  {
    OfAgeHolds(runs, time, Newer);
    OfAgeHolds(runs, time, Tied);
    OfAgeHolds(runs, time, Older);
    SortHolds(OfAge(runs, time, Newer));
    SortHolds(OfAge(runs, time, Older));
    InsertAmong(NewestFirst(OfAge(runs, time, Newer)), OfAge(runs, time, Tied), NewestFirst(OfAge(runs, time, Older)), time, run);
  }

  function Around(newer: seq<RunState>, tied: seq<RunState>, older: seq<RunState>, time: int, run: RunState): seq<RunState> {
    match AgeOf(run, time)
    case Newer => Insert(newer, run) + tied + older
    case Tied => newer + (tied + [run]) + older
    case Older => newer + tied + Insert(older, run)
  }

  lemma InsertAmong(newer: seq<RunState>, tied: seq<RunState>, older: seq<RunState>, time: int, run: RunState)
    requires forall other | other in newer :: Time(other) > time
    requires forall other | other in tied :: Time(other) == time
    requires forall other | other in older :: Time(other) < time
    ensures Insert(newer + tied + older, run) == Around(newer, tied, older, time, run)
  {
    match AgeOf(run, time)
    case Newer =>
      InsertBefore(newer + tied, older, run);
      InsertBefore(newer, tied, run);
    case Tied =>
      InsertBefore(newer + tied, older, run);
      InsertAfter(newer + tied, [], run);
      assert newer + tied + [] == newer + tied && newer + tied + [run] == newer + (tied + [run]);
    case Older =>
      InsertAfter(newer + tied, older, run);
  }

  predicate HasFull(runs: seq<RunState>) {
    exists run :: run in runs && IsFullGraphUpdate(run.data)
  }

  /** The fold goes on behind a list exactly when that has no full update. */
  lemma {:induction false} ExtractConcat(r: Resolved, front: seq<RunState>, back: seq<RunState>)
    ensures Extract(r, front + back) == if HasFull(front) then Extract(r, front) else Extract(Extract(r, front), back)
    decreases |front|
  {
    if front == [] {
      assert front + back == back;
    } else {
      assert (front + back)[1..] == front[1..] + back;
      assert front == [front[0]] + front[1..];
      if !IsFullGraphUpdate(front[0].data) {
        ExtractConcat(AddEvents(r, front[0].events), front[1..], back);
        assert HasFull(front) <==> HasFull(front[1..]);
      }
    }
  }

  /** A run older than a completed update of the whole graph changes nothing,
      wherever it comes. */
  lemma OlderRunsDoNotMatter(before: seq<RunState>, after: seq<RunState>, full: RunState, older: RunState)
    requires full in before + after && IsFullGraphUpdate(full.data) && Time(older) < Time(full)
    ensures Extract(NOTHING, NewestFirst(before + [older] + after)) == Extract(NOTHING, NewestFirst(before + after))
  {
    var with, without, time := before + [older] + after, before + after, Time(full);
    forall age: Age | age != Older
      ensures OfAge(with, time, age) == OfAge(without, time, age)
    {
      assert [older][..0] == [] && OfAge([older], time, age) == [];
      OfAgeAround(before, [older], after, time, age);
    }
    UpToFull(with, full);
    UpToFull(without, full);
  }

  lemma UpToFull(runs: seq<RunState>, full: RunState)
    requires full in runs && IsFullGraphUpdate(full.data)
    ensures Extract(NOTHING, NewestFirst(runs)) ==
            Extract(NOTHING, NewestFirst(OfAge(runs, Time(full), Newer)) + OfAge(runs, Time(full), Tied))
  {
    SortAround(runs, Time(full));
    OfAgeHolds(runs, Time(full), Tied);
    var ahead := NewestFirst(OfAge(runs, Time(full), Newer)) + OfAge(runs, Time(full), Tied);
    assert full in ahead;
    ExtractConcat(NOTHING, ahead, NewestFirst(OfAge(runs, Time(full), Older)));
  }

  // ---------------------------------------------------------- ties with a full update

  /** The runs read before two neighbours of that time: those newer than they, and
      those of the same time that came before them. */
  function Ahead(before: seq<RunState>, after: seq<RunState>, time: int): seq<RunState> {
    NewestFirst(OfAge(before + after, time, Newer)) + OfAge(before, time, Tied)
  }

  function Behind(before: seq<RunState>, after: seq<RunState>, time: int): seq<RunState> {
    OfAge(after, time, Tied) + NewestFirst(OfAge(before + after, time, Older))
  }

  lemma Regrouped<T>(a: seq<T>, b: seq<T>, c: seq<T>, d: seq<T>, e: seq<T>)
    ensures a + (b + c + d) + e == (a + b) + (c + (d + e))
  {}

  lemma PairOfAge(one: RunState, other: RunState, age: Age)
    requires Time(one) == Time(other)
    ensures OfAge([one, other], Time(one), age) == if age == Tied then [one, other] else []
  {
    assert [one, other][..1] == [one] && [one][..0] == [];
    assert OfAge([one], Time(one), age) == if age == Tied then [one] else [];
  }

  lemma OfAgeAround(before: seq<RunState>, pair: seq<RunState>, after: seq<RunState>, time: int, age: Age)
    ensures OfAge(before + pair + after, time, age) ==
            OfAge(before, time, age) + OfAge(pair, time, age) + OfAge(after, time, age)
    ensures OfAge(pair, time, age) == [] ==> OfAge(before + pair + after, time, age) == OfAge(before + after, time, age)
  {
    OfAgeConcat(before + pair, after, time, age);
    OfAgeConcat(before, pair, time, age);
    OfAgeConcat(before, after, time, age);
  }

  lemma SortAroundTie(before: seq<RunState>, one: RunState, other: RunState, after: seq<RunState>)
    requires Time(one) == Time(other)
    ensures NewestFirst(before + [one, other] + after) ==
            Ahead(before, after, Time(one)) + ([one, other] + Behind(before, after, Time(one)))
  {
    var pair, time := [one, other], Time(one);
    SortAround(before + pair + after, time);
    PairOfAge(one, other, Newer);
    PairOfAge(one, other, Tied);
    PairOfAge(one, other, Older);
    OfAgeAround(before, pair, after, time, Newer);
    OfAgeAround(before, pair, after, time, Tied);
    OfAgeAround(before, pair, after, time, Older);
    Regrouped(NewestFirst(OfAge(before + after, time, Newer)), OfAge(before, time, Tied), pair,
              OfAge(after, time, Tied), NewestFirst(OfAge(before + after, time, Older)));
  }

  function OrElse<T>(first: Option<T>, otherwise: Option<T>): Option<T> {
    if first.Some? then first else otherwise
  }

  /** After what has been read, `full` alone says the same of the dataset as when
      `tie` is read as well; or as `tie` alone, if that is a full update, too. */
  ghost predicate SaysTheSame(r: Resolved, tie: RunState, full: RunState, name: string) {
    var counts, schema := name in r.datasets, Get(r.schemas, name);
    var tieSchema, fullSchema := LastSchema(tie.events, name), LastSchema(full.events, name);
    if IsFullGraphUpdate(tie.data) then
      && (counts || (Counts(tie.events, name) <==> Counts(full.events, name)))
      && OrElse(tieSchema, schema) == OrElse(fullSchema, schema)
    else
      && (Counts(tie.events, name) ==> counts || Counts(full.events, name))
      && (tieSchema.Some? ==> fullSchema.Some? || tieSchema == schema)
  }

  lemma AddsTheSameIff(r: Resolved, tie: RunState, full: RunState)
    ensures (if IsFullGraphUpdate(tie.data) then AddEvents(r, tie.events)
             else AddEvents(AddEvents(r, tie.events), full.events)) == AddEvents(r, full.events) <==>
            forall name :: SaysTheSame(r, tie, full, name)
  {
    var a, b := if IsFullGraphUpdate(tie.data) then AddEvents(r, tie.events)
                else AddEvents(AddEvents(r, tie.events), full.events), AddEvents(r, full.events);
    forall name
      ensures SaysTheSame(r, tie, full, name) <==>
              (name in a.datasets <==> name in b.datasets) && Get(a.schemas, name) == Get(b.schemas, name)
    {
      EventsAdd(r, tie.events, name);
      EventsAdd(r, full.events, name);
      EventsAdd(AddEvents(r, tie.events), full.events, name);
    }
    if forall name :: SaysTheSame(r, tie, full, name) {
      forall name
        ensures name in a.datasets <==> name in b.datasets
        ensures Get(a.schemas, name) == Get(b.schemas, name)
      {
        assert SaysTheSame(r, tie, full, name);
      }
      SameMaps(a.schemas, b.schemas);
      assert a.datasets == b.datasets;
    }
  }

  /** When a run ties with a full update that comes next to it, their order does not
      matter exactly when a full update is read before them, or what has been read
      and the full update leave nothing for the run to add. */
  lemma TieDoesNotMatterIff(before: seq<RunState>, tie: RunState, full: RunState, after: seq<RunState>)
    requires Time(tie) == Time(full) && IsFullGraphUpdate(full.data)
    ensures
      var ahead := Ahead(before, after, Time(tie));
      Extract(NOTHING, NewestFirst(before + [tie, full] + after)) ==
      Extract(NOTHING, NewestFirst(before + [full, tie] + after)) <==>
        HasFull(ahead) || forall name :: SaysTheSame(Extract(NOTHING, ahead), tie, full, name)
  {
    var ahead, behind := Ahead(before, after, Time(tie)), Behind(before, after, Time(tie));
    SortAroundTie(before, tie, full, after);
    SortAroundTie(before, full, tie, after);
    ExtractConcat(NOTHING, ahead, [tie, full] + behind);
    ExtractConcat(NOTHING, ahead, [full, tie] + behind);
    if !HasFull(ahead) {
      var r := Extract(NOTHING, ahead);
      ExtractPair(r, tie, full, behind);
      AddsTheSameIff(r, tie, full);
    }
  }

  lemma ExtractPair(r: Resolved, tie: RunState, full: RunState, behind: seq<RunState>)
    requires IsFullGraphUpdate(full.data)
    ensures Extract(r, [tie, full] + behind) ==
            if IsFullGraphUpdate(tie.data) then AddEvents(r, tie.events)
            else AddEvents(AddEvents(r, tie.events), full.events)
    ensures Extract(r, [full, tie] + behind) == AddEvents(r, full.events)
  {
    assert ([tie, full] + behind)[1..] == [full] + behind;
  }

  /** So it can matter: a run that ties with a full update is in or out by the order
      in which the two came. */
  lemma TiesDependOnOrder(name: string)
    requires name != ""
    ensures
      var full := RunState(Some(UpdateInfo(Some(1), true, [], [])), []);
      var tie := RunState(Some(UpdateInfo(Some(1), false, [], [])),
                          [Event(Some(name), Some(Definition(Some("TABLE"), None)))]);
      name in Extract(NOTHING, NewestFirst([tie, full])).datasets &&
      name !in Extract(NOTHING, NewestFirst([full, tie])).datasets
  {
    var full := RunState(Some(UpdateInfo(Some(1), true, [], [])), []);
    var event := Event(Some(name), Some(Definition(Some("TABLE"), None)));
    var tie := RunState(Some(UpdateInfo(Some(1), false, [], [])), [event]);
    NewerComesFirst(tie, full, 1, 1);
    NewerComesFirst(full, tie, 1, 1);
    assert [tie, full][1..] == [full] && [full, tie][1..] == [tie];
    EventsAdd(NOTHING, [event], name);
    assert IsDatasetEvent([event][0], name);
    assert Extract(NOTHING, [full, tie]) == NOTHING;
  }
}
