/** Tasks under optimistic locking: sql-task.repository.ts and the use case above it,
    task.use-case.ts. Timestamps are not modelled. */
module TaskRepository {
  import opened Wrappers

  datatype Status = ACTIVE | ARCHIVED

  datatype Task = Task(id: string, title: string, description: Option<string>, status: Status, version: int)

  /** A field that is None is left alone; a description can be set to null. */
  datatype Patch = Patch(title: Option<string>, description: Option<Option<string>>)

  datatype Change = Edit(patch: Patch) | Archival

  datatype Error = TaskNotFound | OptimisticLockConflict | DuplicateId

  /** A task as it is created. */
  function Created(id: string, title: string, description: Option<string>): Task {
    Task(id, title, description, ACTIVE, 0)
  }

  function Apply(task: Task, change: Change): Task {
    match change
    case Edit(patch) => task.(
      title := if patch.title.Some? then patch.title.value else task.title,
      description := if patch.description.Some? then patch.description.value else task.description,
      version := task.version + 1)
    case Archival => task.(status := ARCHIVED, version := task.version + 1)
  }

  /** Compare and swap: the change applies to the expected version or not at all. */
  function Swap(row: Option<Task>, expectedVersion: int, change: Change): Result<Task, Error> {
    if row.None? then Err(TaskNotFound)
    else if row.value.version != expectedVersion then Err(OptimisticLockConflict)
    else Ok(Apply(row.value, change))
  }

  // ----- the UPDATE statement and its parameters -----

  datatype Value = Text(text: string) | Null | Number(number: int)

  datatype Column = TitleColumn | DescriptionColumn

  /** One item of the SET clause: a column from the parameter numbered `i`, counting from 1, or a
      fixed expression. */
  datatype Assignment = Param(column: Column, i: nat) | Touch | Bump

  /** UPDATE tasks SET ... WHERE id = $idParam AND version = $versionParam RETURNING ... */
  datatype UpdateStatement = UpdateStatement(sets: seq<Assignment>, idParam: nat, versionParam: nat)

  function Bound(values: seq<Value>, i: nat): Value {
    if 1 <= i <= |values| then values[i - 1] else Null
  }

  function Assign(task: Task, assignment: Assignment, values: seq<Value>): Task {
    match assignment
    case Param(TitleColumn, i) => if Bound(values, i).Text? then task.(title := Bound(values, i).text) else task
    case Param(DescriptionColumn, i) =>
      task.(description := if Bound(values, i).Text? then Some(Bound(values, i).text) else None)
    case Touch => task
    case Bump => task.(version := task.version + 1)
  }

  /** The effect of the first `k` items. */
  function AssignAll(task: Task, sets: seq<Assignment>, values: seq<Value>, k: nat): Task
    requires k <= |sets|
  {
    if k == 0 then task else Assign(AssignAll(task, sets, values, k - 1), sets[k - 1], values)
  }

  /** The row the statement changes, as it leaves it. */
  function Returning(rows: map<string, Task>, statement: UpdateStatement, values: seq<Value>): Option<Task> {
    var id, version := Bound(values, statement.idParam), Bound(values, statement.versionParam);
    if id.Text? && id.text in rows && version == Number(rows[id.text].version)
    then Some(AssignAll(rows[id.text], statement.sets, values, |statement.sets|))
    else None
  }

  function Lookup(rows: map<string, Task>, id: string): Option<Task> {
    if id in rows then Some(rows[id]) else None
  }

  function Described(description: Option<string>): Value {
    if description.Some? then Text(description.value) else Null
  }

  class SqlTaskRepository {
    var rows: map<string, Task>

    constructor ()
      ensures rows == map[]
    {
      rows := map[];
    }

    /** INSERT; the primary key refuses an id that is taken. */
    method Create(id: string, title: string, description: Option<string>) returns (result: Result<Task, Error>)
      modifies this
      ensures result == if id in old(rows) then Err(DuplicateId) else Ok(Created(id, title, description))
      ensures result.Ok? ==> result.value == Task(id, title, description, ACTIVE, 0)
      ensures rows == if result.Ok? then old(rows)[id := result.value] else old(rows)
    {
      if id in rows { return Err(DuplicateId); }
      var task := Task(id, title, description, ACTIVE, 0);
      rows := rows[id := task];
      result := Ok(task);
    }

    method Archive(id: string, expectedVersion: int) returns (result: Result<Task, Error>)
      modifies this
      ensures result == Swap(Lookup(old(rows), id), expectedVersion, Archival)
      ensures result == Err(TaskNotFound) <==> id !in old(rows)
      ensures result == Err(OptimisticLockConflict) <==> id in old(rows) && old(rows)[id].version != expectedVersion
      // only the status changes, and the version goes up
      ensures id in old(rows) && old(rows)[id].version == expectedVersion ==>
        result == Ok(old(rows)[id].(status := ARCHIVED, version := expectedVersion + 1))
      ensures rows == if result.Ok? then old(rows)[id := result.value] else old(rows)
    {
      if id in rows && rows[id].version == expectedVersion {
        var row := rows[id].(status := ARCHIVED, version := rows[id].version + 1);
        rows := rows[id := row];
        return Ok(row);
      }
      result := Err(if id !in rows then TaskNotFound else OptimisticLockConflict);
    }

    /** The statement is put together from the fields the caller gave; each placeholder meets its own
        value, whichever fields those are. */
    method Update(id: string, expectedVersion: int, patch: Patch) returns (result: Result<Task, Error>)
      modifies this
      ensures result == Swap(Lookup(old(rows), id), expectedVersion, Edit(patch))
      ensures result == Err(TaskNotFound) <==> id !in old(rows)
      ensures result == Err(OptimisticLockConflict) <==> id in old(rows) && old(rows)[id].version != expectedVersion
      // each field that was given has its new value, and every other one its old value
      ensures id in old(rows) && old(rows)[id].version == expectedVersion ==>
        && result.Ok? && result.value.version == expectedVersion + 1
        && result.value.title == (if patch.title.Some? then patch.title.value else old(rows)[id].title)
        && result.value.description
          == (if patch.description.Some? then patch.description.value else old(rows)[id].description)
        && result.value.id == old(rows)[id].id && result.value.status == old(rows)[id].status
      ensures rows == if result.Ok? then old(rows)[id := result.value] else old(rows)
    {
      var sets: seq<Assignment>, values: seq<Value>, i := [], [], 1;
      if patch.title.Some? {
        sets, values, i := sets + [Param(TitleColumn, i)], values + [Text(patch.title.value)], i + 1;
      }
      if patch.description.Some? {
        sets, values, i := sets + [Param(DescriptionColumn, i)], values + [Described(patch.description.value)], i + 1;
      }
      sets := sets + [Touch, Bump];
      values := values + [Text(id), Number(expectedVersion)];
      var statement := UpdateStatement(sets, i, i + 1);
      var row := Returning(rows, statement, values);
      if row.None? {
        return Err(if id !in rows then TaskNotFound else OptimisticLockConflict);
      }
      ghost var first := Assign(rows[id], sets[0], values);
      assert AssignAll(rows[id], sets, values, 1) == first;
      ghost var second := Assign(first, sets[1], values);
      assert AssignAll(rows[id], sets, values, 2) == second;
      if |sets| > 2 {
        assert AssignAll(rows[id], sets, values, 3) == Assign(second, sets[2], values);
      }
      rows := rows[id := row.value];
      result := Ok(row.value);
    }
  }

  // ----- all requests together -----

  /** `Found` keeps the row that the use case read before it changed anything. */
  datatype Phase =
    | Started
    | Found(seen: Task)
    | Swapped(seen: Task, returned: Task)
    | Done(returned: Task)
    | Failed

  datatype Request = Request(expectedVersion: int, change: Change, phase: Phase)

  /** A write that was committed. */
  datatype Written = Written(expectedVersion: int, change: Change)

  /** One task: its committed row, the request that holds the row lock with a change not yet
      committed, and the history of committed writes. */
  datatype State = State(
    created: Option<Task>,
    row: Option<Task>,
    lock: Option<nat>,
    requests: map<nat, Request>,
    history: seq<Written>)

  datatype Step =
    | Create(task: Task)
    | Arrive(r: nat, expectedVersion: int, change: Change)
    | Find(r: nat)
    | SwapRow(r: nat)
    | Commit(r: nat)
    /** An error, a timeout or a crash: whatever the request did is rolled back. */
    | Abandon(r: nat)

  predicate Enabled(s: State, step: Step) {
    match step
    case Create(task) => s.row.None? && task == Created(task.id, task.title, task.description)
    case Arrive(r, _, _) => r !in s.requests
    case Find(r) => r in s.requests && s.requests[r].phase.Started?
    // UPDATE waits for the row lock, then looks at the row as last committed
    case SwapRow(r) => r in s.requests && s.requests[r].phase.Found? && s.lock.None?
    case Commit(r) => r in s.requests && s.requests[r].phase.Swapped?
    case Abandon(r) => r in s.requests && !s.requests[r].phase.Done?
  }

  function To(s: State, r: nat, phase: Phase): State
    requires r in s.requests
  {
    s.(requests := s.requests[r := s.requests[r].(phase := phase)])
  }

  function Next(s: State, step: Step): State
    requires Enabled(s, step)
  {
    match step
    case Create(task) => s.(created := Some(task), row := Some(task))
    case Arrive(r, expectedVersion, change) =>
      s.(requests := s.requests[r := Request(expectedVersion, change, Started)])
    case Find(r) =>
      if s.row.None? || (s.requests[r].change.Archival? && s.row.value.status.ARCHIVED?) then To(s, r, Failed)
      else To(s, r, Found(s.row.value))
    case SwapRow(r) =>
      var q := s.requests[r];
      var swapped := Swap(s.row, q.expectedVersion, q.change);
      if swapped.Err? then To(s, r, Failed)
      else To(s, r, Swapped(q.phase.seen, swapped.value)).(lock := Some(r))
    case Commit(r) =>
      var q := s.requests[r];
      To(s, r, Done(q.phase.returned)).(
        lock := None,
        row := Some(q.phase.returned),
        history := s.history + [Written(q.expectedVersion, q.change)])
    case Abandon(r) =>
      var s' := To(s, r, Failed);
      if s.requests[r].phase.Swapped? then s'.(lock := None) else s'
  }

  ghost predicate Init(s: State) {
    s.created.None? && s.row.None? && s.lock.None? && s.requests == map[] && s.history == []
  }

  ghost predicate Run(states: seq<State>, steps: seq<Step>) {
    && |states| == |steps| + 1 && Init(states[0])
    && forall i :: 0 <= i < |steps| ==> Enabled(states[i], steps[i]) && states[i + 1] == Next(states[i], steps[i])
  }

  /** The task after its first `k` committed writes. */
  function RowAt(created: Task, history: seq<Written>, k: nat): Task
    requires k <= |history|
  {
    if k == 0 then created else Apply(RowAt(created, history, k - 1), history[k - 1].change)
  }

  /** `task` is what the row was after as many writes as its version says. */
  ghost predicate Genuine(s: State, task: Task) {
    s.created.Some? && 0 <= task.version <= |s.history| && task == RowAt(s.created.value, s.history, task.version)
  }

  ghost predicate RequestSound(s: State, r: nat, q: Request) {
    match q.phase
    case Started => true
    case Found(seen) => Genuine(s, seen) && (q.change.Archival? ==> seen.status.ACTIVE?)
    case Swapped(seen, returned) =>
      && s.lock == Some(r) && s.row.Some? && Genuine(s, seen) && (q.change.Archival? ==> seen.status.ACTIVE?)
      && Swap(s.row, q.expectedVersion, q.change) == Ok(returned)
    case Done(returned) =>
      && Genuine(s, returned) && 0 <= q.expectedVersion && returned.version == q.expectedVersion + 1
      && s.history[q.expectedVersion] == Written(q.expectedVersion, q.change)
    case Failed => true
  }

  ghost predicate HistorySound(s: State) {
    forall k :: 0 <= k < |s.history| ==> s.history[k].expectedVersion == k
  }

  ghost predicate Sound(s: State) {
    && (s.row.Some? <==> s.created.Some?)
    && (s.row.None? ==> s.history == [] && s.lock.None?)
    && (s.row.Some? ==> s.created.value.version == 0 && s.created.value.status.ACTIVE?)
    && (s.row.Some? ==> s.row.value.version == |s.history|)
    && (s.row.Some? ==> s.row.value == RowAt(s.created.value, s.history, |s.history|))
    && (s.lock.Some? ==> s.lock.value in s.requests && s.requests[s.lock.value].phase.Swapped?)
    && HistorySound(s)
    && forall r :: r in s.requests ==> RequestSound(s, r, s.requests[r])
  }

  lemma {:induction false} RowAtPrefix(created: Task, history: seq<Written>, written: Written, k: nat)
    requires k <= |history|
    ensures RowAt(created, history + [written], k) == RowAt(created, history, k)
  {
    if k > 0 {
      RowAtPrefix(created, history, written, k - 1);
      assert (history + [written])[k - 1] == history[k - 1];
    }
  }

  lemma {:induction false} RowAtVersion(created: Task, history: seq<Written>, k: nat)
    requires k <= |history| && created.version == 0
    ensures RowAt(created, history, k).version == k
  {
    if k > 0 { RowAtVersion(created, history, k - 1); }
  }

  lemma GenuineStays(s: State, written: Written, task: Task)
    requires Genuine(s, task)
    ensures Genuine(s.(history := s.history + [written]), task)
  {
    RowAtPrefix(s.created.value, s.history, written, task.version);
  }

  lemma CommitKeeps(s: State, r: nat)
    requires Sound(s) && Enabled(s, Commit(r))
    ensures Sound(Next(s, Commit(r)))
  {
    var s' := Next(s, Commit(r));
    var q := s.requests[r];
    var written := Written(q.expectedVersion, q.change);
    assert RequestSound(s, r, q);
    RowAtPrefix(s.created.value, s.history, written, |s.history|);
    assert s'.row.value == RowAt(s'.created.value, s'.history, |s'.history|);
    forall p | p in s'.requests ensures RequestSound(s', p, s'.requests[p]) {
      assert RequestSound(s, p, s.requests[p]);
      if s.requests[p].phase.Found? || (s.requests[p].phase.Swapped? && p != r) {
        GenuineStays(s, written, s.requests[p].phase.seen);
      } else if s.requests[p].phase.Done? {
        GenuineStays(s, written, s.requests[p].phase.returned);
      }
    }
  }

  lemma SwapKeeps(s: State, r: nat)
    requires Sound(s) && Enabled(s, SwapRow(r))
    ensures Sound(Next(s, SwapRow(r)))
  {
    var s' := Next(s, SwapRow(r));
    forall p | p in s'.requests ensures RequestSound(s', p, s'.requests[p]) {
      assert RequestSound(s, p, s.requests[p]);
    }
  }

  /** A step that writes nothing and touches one request at most. */
  lemma QuietKeeps(s: State, step: Step)
    requires Sound(s) && Enabled(s, step) && (step.Arrive? || step.Find? || step.Abandon?)
    ensures Sound(Next(s, step))
  {
    var s' := Next(s, step);
    forall r | r in s'.requests ensures RequestSound(s', r, s'.requests[r]) {
      if r in s.requests {
        assert RequestSound(s, r, s.requests[r]);
      }
    }
  }

  lemma CreateKeeps(s: State, step: Step)
    requires Sound(s) && Enabled(s, step) && step.Create?
    ensures Sound(Next(s, step))
  {
    var s' := Next(s, step);
    forall r | r in s'.requests ensures RequestSound(s', r, s'.requests[r]) {
      assert RequestSound(s, r, s.requests[r]);
    }
  }

  lemma StepKeeps(s: State, step: Step)
    requires Sound(s) && Enabled(s, step)
    ensures Sound(Next(s, step))
  {
    match step
    case Create(_) => CreateKeeps(s, step);
    case SwapRow(r) => SwapKeeps(s, r);
    case Commit(r) => CommitKeeps(s, r);
    case _ => QuietKeeps(s, step);
  }

  ghost predicate FoldOfWrites(s: State)
    requires s.row.Some? && s.created.Some?
  {
    && s.row.value.version == |s.history| && s.row.value == RowAt(s.created.value, s.history, |s.history|)
    && forall k :: 0 <= k < |s.history| ==> s.history[k].expectedVersion == k
  }

  ghost predicate GivenItsOwnWrite(s: State, q: Request)
    requires q.phase.Done?
  {
    && s.created.Some? && 0 <= q.expectedVersion < |s.history|
    && s.history[q.expectedVersion] == Written(q.expectedVersion, q.change)
    && q.phase.returned == RowAt(s.created.value, s.history, q.expectedVersion + 1)
  }

  /** For any interleaving: the row is the fold of the committed writes in version order, the k-th of
      them expected version k, so that each version is written over at most once; and what a request
      that succeeded was given is the row as its own write left it. */
  lemma {:induction false} NoLostUpdate(states: seq<State>, steps: seq<Step>, i: nat)
    requires Run(states, steps) && i < |states|
    ensures Sound(states[i])
    ensures states[i].row.Some? ==> states[i].created.Some? && FoldOfWrites(states[i])
    ensures forall r :: r in states[i].requests && states[i].requests[r].phase.Done? ==>
      GivenItsOwnWrite(states[i], states[i].requests[r])
  {
    if i > 0 {
      NoLostUpdate(states, steps, i - 1);
      StepKeeps(states[i - 1], steps[i - 1]);
    }
    forall r | r in states[i].requests && states[i].requests[r].phase.Done?
      ensures GivenItsOwnWrite(states[i], states[i].requests[r])
    {
      assert RequestSound(states[i], r, states[i].requests[r]);
    }
  }

  /** Two requests that succeeded expected different versions. */
  lemma {:induction false} EachVersionOnce(states: seq<State>, steps: seq<Step>, i: nat, j: nat)
    requires Run(states, steps) && i < j < |steps|
    requires steps[i].Commit? && steps[j].Commit?
    ensures states[i].requests[steps[i].r].expectedVersion < states[j].requests[steps[j].r].expectedVersion
    ensures states[i].requests[steps[i].r].expectedVersion == |states[i].history|
  {
    NoLostUpdate(states, steps, i);
    NoLostUpdate(states, steps, j);
    assert RequestSound(states[i], steps[i].r, states[i].requests[steps[i].r]);
    assert RequestSound(states[j], steps[j].r, states[j].requests[steps[j].r]);
    HistoryGrows(states, steps, i + 1, j);
  }

  /** Nothing written is forgotten, and what is archived stays so. */
  ghost predicate Later(s: State, t: State) {
    && s.history <= t.history
    && (s.row.Some? ==> t.row.Some? && (s.row.value.status.ARCHIVED? ==> t.row.value.status.ARCHIVED?))
  }

  lemma StepIsLater(s: State, step: Step)
    requires Sound(s) && Enabled(s, step)
    ensures Later(s, Next(s, step))
  {
    if step.Commit? {
      assert RequestSound(s, step.r, s.requests[step.r]);
    }
  }

  lemma {:induction false} HistoryGrows(states: seq<State>, steps: seq<Step>, i: nat, j: nat)
    requires Run(states, steps) && i <= j < |states|
    ensures Later(states[i], states[j])
  {
    if i < j {
      HistoryGrows(states, steps, i, j - 1);
      NoLostUpdate(states, steps, j - 1);
      StepIsLater(states[j - 1], steps[j - 1]);
    }
  }

  /** An archived task is never active again. */
  lemma ArchivedForGood(states: seq<State>, steps: seq<Step>, i: nat, j: nat)
    requires Run(states, steps) && i <= j < |states|
    requires states[i].row.Some? && states[i].row.value.status.ARCHIVED?
    ensures states[j].row.Some? && states[j].row.value.status.ARCHIVED?
  {
    HistoryGrows(states, steps, i, j);
  }

  /** After `k` writes the task is archived if it was created so or one of them archived it. */
  lemma {:induction false} ArchivedByHistory(created: Task, history: seq<Written>, k: nat)
    requires k <= |history|
    ensures RowAt(created, history, k).status.ARCHIVED?
      <==> created.status.ARCHIVED? || exists j :: 0 <= j < k && history[j].change.Archival?
  {
    if k > 0 { ArchivedByHistory(created, history, k - 1); }
  }

  /** A request archives a task that is archived already exactly when an archival was committed between the
      version it read and the version it expects. */
  lemma SecondArchivalExactly(s: State, r: nat)
    requires Sound(s) && Enabled(s, Commit(r)) && s.requests[r].change.Archival?
    ensures var seen, expected := s.requests[r].phase.seen.version, s.requests[r].expectedVersion;
      s.row.value.status.ARCHIVED? <==> exists j :: seen <= j < expected && s.history[j].change.Archival?
  {
    var q := s.requests[r];
    assert RequestSound(s, r, q);
    ArchivedByHistory(s.created.value, s.history, |s.history|);
    ArchivedByHistory(s.created.value, s.history, q.phase.seen.version);
  }

  /** So never by a caller that expects no later version than the one its request reads. */
  lemma SecondArchivalNeedsForesight(s: State, r: nat)
    requires Sound(s) && Enabled(s, Commit(r)) && s.requests[r].change.Archival?
    requires s.requests[r].expectedVersion <= s.requests[r].phase.seen.version
    ensures s.row.value.status.ACTIVE?
  {
    SecondArchivalExactly(s, r);
  }

  // ----- and whenever it expects a later one, it can happen -----

  ghost predicate Reached(s: State) {
    exists states, steps :: Run(states, steps) && states[|states| - 1] == s
  }

  lemma ReachedNext(s: State, step: Step)
    requires Reached(s) && Enabled(s, step)
    ensures Reached(Next(s, step))
  {
    var states, steps :| Run(states, steps) && states[|states| - 1] == s;
    var more, further := states + [Next(s, step)], steps + [step];
    forall i | 0 <= i < |further| ensures Enabled(more[i], further[i]) && more[i + 1] == Next(more[i], further[i]) {
      if i < |steps| {
        assert Enabled(states[i], steps[i]) && states[i + 1] == Next(states[i], steps[i]);
      }
    }
    assert Run(more, further) && more[|more| - 1] == Next(s, step);
  }

  /** Another request changes the task from start to end, and request `x` stays as it was. */
  ghost predicate Changed(s: State, s': State, x: nat, change: Change)
    requires s.row.Some?
  {
    && Reached(s') && s'.row.Some? && s'.lock.None?
    && (x in s.requests ==> x in s'.requests && s'.requests[x] == s.requests[x])
    && s'.row == Some(Apply(s.row.value, change))
    && s'.history == s.history + [Written(s.row.value.version, change)]
  }

  lemma OneMoreChange(s: State, x: nat, r: nat, change: Change) returns (s': State)
    requires Reached(s) && s.row.Some? && s.lock.None? && r !in s.requests && r != x
    requires change.Archival? ==> s.row.value.status.ACTIVE?
    ensures Changed(s, s', x, change) && s'.requests.Keys == s.requests.Keys + {r}
  {
    var expected := s.row.value.version;
    ReachedNext(s, Arrive(r, expected, change));
    var s1 := Next(s, Arrive(r, expected, change));
    ReachedNext(s1, Find(r));
    var s2 := Next(s1, Find(r));
    ReachedNext(s2, SwapRow(r));
    var s3 := Next(s2, SwapRow(r));
    ReachedNext(s3, Commit(r));
    s' := Next(s3, Commit(r));
  }

  const NO_CHANGE := Edit(Patch(None, None))

  /** `n` more edits, by requests numbered from `from` on. */
  lemma {:induction false} MoreEdits(s: State, x: nat, from: nat, n: nat) returns (s': State)
    requires Reached(s) && s.row.Some? && s.lock.None? && x < from && forall r :: r in s.requests ==> r < from
    ensures Reached(s') && s'.row.Some? && s'.lock.None? && (forall r :: r in s'.requests ==> r < from + n)
    ensures if x in s.requests then x in s'.requests && s'.requests[x] == s.requests[x] else x !in s'.requests
    ensures s'.row.value.version == s.row.value.version + n && s'.row.value.status == s.row.value.status
    ensures s.history <= s'.history && |s'.history| == |s.history| + n
  {
    s' := s;
    if n > 0 {
      var t := MoreEdits(s, x, from, n - 1);
      s' := OneMoreChange(t, x, from + n - 1, NO_CHANGE);
    }
  }

  /** Request `r` is about to archive the task a second time, over what it read at version `seen`. */
  ghost predicate SecondArchivalAhead(s: State, r: nat, seen: nat, expected: nat) {
    && Enabled(s, Commit(r)) && s.requests[r].change.Archival? && s.row.Some? && s.row.value.status.ARCHIVED?
    && s.requests[r].phase.seen.version == seen && s.requests[r].expectedVersion == expected
  }

  /** Request 0 has read the task, active, at version `seen`. */
  lemma ReadAtVersion(task: Task, seen: nat, expected: nat) returns (s: State)
    requires task == Created(task.id, task.title, task.description)
    ensures Reached(s) && s.row.Some? && s.lock.None? && s.row.value.version == seen && s.row.value.status.ACTIVE?
    ensures 0 in s.requests && s.requests[0] == Request(expected, Archival, Found(s.row.value))
    ensures forall r :: r in s.requests ==> r < seen + 1
  {
    var s0 := State(None, None, None, map[], []);
    assert Run([s0], []) && [s0][|[s0]| - 1] == s0;
    ReachedNext(s0, Create(task));
    var s1 := MoreEdits(Next(s0, Create(task)), 0, 1, seen);
    ReachedNext(s1, Arrive(0, expected, Archival));
    var s2 := Next(s1, Arrive(0, expected, Archival));
    ReachedNext(s2, Find(0));
    s := Next(s2, Find(0));
  }

  /** Whatever version was read, and whatever later one is expected, there is a run to a second archival. */
  lemma SecondArchivalHappens(task: Task, seen: nat, expected: nat)
    requires task == Created(task.id, task.title, task.description) && seen < expected
    ensures exists s :: Reached(s) && SecondArchivalAhead(s, 0, seen, expected)
  {
    var s0 := ReadAtVersion(task, seen, expected);
    var s1 := OneMoreChange(s0, 0, seen + 1, Archival);
    var s2 := MoreEdits(s1, 0, seen + 2, expected - seen - 1);
    ReachedNext(s2, SwapRow(0));
    assert SecondArchivalAhead(Next(s2, SwapRow(0)), 0, seen, expected);
  }
}
