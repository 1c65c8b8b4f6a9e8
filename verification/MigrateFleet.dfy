/** Any number of migration runners at once (migrate.ts): every replica's init container, a CI job,
    a laptop. Any of them can crash between any two statements. */
module MigrateFleet {
  import opened Wrappers
  import opened Migrate

  /** `Unrecorded`: the SQL of a no-transaction file has run, its record is not written yet. */
  datatype Phase = Waiting | Checking | Applying(k: nat) | Unrecorded(k: nat) | Returned | Stopped

  /** One run: its files, what it read as applied, what it applied. */
  datatype Runner = Runner(list: seq<Migration>, applied: set<string>, done: seq<string>, phase: Phase)

  /** The bookkeeping rows, the effects in the schema, the holder of the advisory lock, and the history
      of runs of no-transaction files that were cut off before their record. */
  datatype State = State(
    records: seq<Migration>,
    schema: seq<Migration>,
    lock: Option<nat>,
    runners: map<nat, Runner>,
    interrupted: multiset<Migration>)

  datatype Step =
    | Start(r: nat, list: seq<Migration>)
    | Lock(r: nat)
    | Check(r: nat)
    | Skip(r: nat)
    /** BEGIN, the file, its record, COMMIT: both or neither, and the answer can be lost. */
    | Transact(r: nat, committed: bool, answered: bool)
    | RunSql(r: nat, ran: bool, answered: bool)
    | Record(r: nat, written: bool, answered: bool)
    | Finish(r: nat)
    | Crash(r: nat)

  predicate Holds(phase: Phase) {
    phase.Checking? || phase.Applying? || phase.Unrecorded?
  }

  predicate AtPending(runner: Runner) {
    runner.phase.Applying? && runner.phase.k < |runner.list| && runner.list[runner.phase.k].version !in runner.applied
  }

  predicate AtUnrecorded(runner: Runner) {
    runner.phase.Unrecorded? && runner.phase.k < |runner.list|
  }

  ghost predicate Enabled(s: State, step: Step) {
    match step
    case Start(r, list) => r !in s.runners && Distinct(list)
    case Lock(r) => r in s.runners && s.runners[r].phase.Waiting? && s.lock.None?
    case Check(r) => r in s.runners && s.runners[r].phase.Checking?
    case Skip(r) =>
      && r in s.runners && s.runners[r].phase.Applying? && s.runners[r].phase.k < |s.runners[r].list|
      && !AtPending(s.runners[r])
    case Transact(r, committed, answered) =>
      r in s.runners && AtPending(s.runners[r]) && Current(s.runners[r]).transactional && (answered ==> committed)
    case RunSql(r, ran, answered) =>
      r in s.runners && AtPending(s.runners[r]) && !Current(s.runners[r]).transactional && (answered ==> ran)
    case Record(r, written, answered) => r in s.runners && AtUnrecorded(s.runners[r]) && (answered ==> written)
    case Finish(r) => r in s.runners && s.runners[r].phase.Applying? && s.runners[r].phase.k >= |s.runners[r].list|
    case Crash(r) => r in s.runners
  }

  /** The migration a runner is at. */
  function Current(runner: Runner): Migration
    requires AtPending(runner) || AtUnrecorded(runner)
  {
    runner.list[runner.phase.k]
  }

  /** An error ends the run and releases the lock. */
  function Stop(s: State, r: nat): State
    requires r in s.runners
  {
    s.(lock := None, runners := s.runners[r := s.runners[r].(phase := Stopped)])
  }

  function GoOn(s: State, r: nat): State
    requires r in s.runners && (AtPending(s.runners[r]) || AtUnrecorded(s.runners[r]))
  {
    var runner := s.runners[r];
    var done := runner.done + [Current(runner).version];
    s.(runners := s.runners[r := runner.(done := done, phase := Applying(runner.phase.k + 1))])
  }

  function Next(s: State, step: Step): State
    requires Enabled(s, step)
  {
    match step
    case Start(r, list) => s.(runners := s.runners[r := Runner(list, {}, [], Waiting)])
    case Lock(r) => s.(lock := Some(r), runners := s.runners[r := s.runners[r].(phase := Checking)])
    case Check(r) =>
      if Consistent(s.records, s.runners[r].list)
      then s.(runners := s.runners[r := s.runners[r].(applied := Versions(s.records), phase := Applying(0))])
      else Stop(s, r)
    case Skip(r) => s.(runners := s.runners[r := s.runners[r].(phase := Applying(s.runners[r].phase.k + 1))])
    case Transact(r, committed, answered) =>
      var m := Current(s.runners[r]);
      var s' := if committed then s.(schema := s.schema + [m], records := s.records + [m]) else s;
      if answered then GoOn(s', r) else Stop(s', r)
    case RunSql(r, ran, answered) =>
      var m := Current(s.runners[r]);
      var s' := if ran then s.(schema := s.schema + [m]) else s;
      if answered then s'.(runners := s.runners[r := s.runners[r].(phase := Unrecorded(s.runners[r].phase.k))])
      else Stop(if ran then s'.(interrupted := s.interrupted + multiset{m}) else s', r)
    case Record(r, written, answered) =>
      var m := Current(s.runners[r]);
      if answered then GoOn(s.(records := s.records + [m]), r)
      else Stop(if written then s.(records := s.records + [m]) else s.(interrupted := s.interrupted + multiset{m}), r)
    case Finish(r) => s.(lock := None, runners := s.runners[r := s.runners[r].(phase := Returned)])
    case Crash(r) =>
      var s' := s.(lock := if s.lock == Some(r) then None else s.lock, runners := s.runners - {r});
      if AtUnrecorded(s.runners[r]) then s'.(interrupted := s.interrupted + multiset{Current(s.runners[r])}) else s'
  }

  ghost predicate Init(s: State) {
    s == State([], [], None, map[], multiset{})
  }

  ghost predicate Run(states: seq<State>, steps: seq<Step>) {
    && |states| == |steps| + 1 && Init(states[0])
    && forall i :: 0 <= i < |steps| ==> Enabled(states[i], steps[i]) && states[i + 1] == Next(states[i], steps[i])
  }

  // ----- what every step keeps -----

  /** At most one runner is at work: the one that holds the lock. */
  ghost predicate Exclusive(s: State) {
    && (forall r :: r in s.runners ==> (Holds(s.runners[r].phase) <==> s.lock == Some(r)))
    && (s.lock.Some? ==> s.lock.value in s.runners)
  }

  /** The run at work has read or written every record, and its files up to `k` are all recorded. */
  ghost predicate InStep(s: State, runner: Runner, k: nat) {
    && k <= |runner.list| && Versions(s.records) == runner.applied + DoneSet(runner)
    && DoneSet(runner) <= Versions(runner.list[..k]) <= Versions(s.records)
  }

  function DoneSet(runner: Runner): set<string> {
    set v | v in runner.done
  }

  ghost predicate RunnerSound(s: State, runner: Runner) {
    && Distinct(runner.list)
    && match runner.phase
       case Applying(k) => InStep(s, runner, k)
       case Unrecorded(k) =>
         && k < |runner.list| && InStep(s, runner, k)
         && !runner.list[k].transactional && runner.list[k].version !in runner.applied
       case Waiting => runner.done == []
       case Checking => runner.done == []
       case Returned => Versions(runner.list) <= Versions(s.records)
       case Stopped => true
  }

  /** The only effect that may lack its record. */
  function InFlight(s: State): multiset<Migration> {
    if s.lock.Some? && s.lock.value in s.runners && AtUnrecorded(s.runners[s.lock.value])
    then multiset{Current(s.runners[s.lock.value])}
    else multiset{}
  }

  function Transactional(migrations: seq<Migration>): seq<Migration> {
    if migrations == [] then []
    else
      var last := migrations[|migrations| - 1];
      Transactional(migrations[..|migrations| - 1]) + if last.transactional then [last] else []
  }

  lemma TransactionalPlus(migrations: seq<Migration>, m: Migration)
    ensures Transactional(migrations + [m]) == Transactional(migrations) + if m.transactional then [m] else []
  {
    assert (migrations + [m])[..|migrations|] == migrations;
  }

  /** Effects are what the records name, what was cut off, and what is still without its record. */
  ghost predicate Books(schema: seq<Migration>, records: seq<Migration>, interrupted: multiset<Migration>,
                        inFlight: multiset<Migration>) {
    && multiset(schema) == multiset(records) + interrupted + inFlight
    && Transactional(schema) == Transactional(records)
    && (forall m :: m in interrupted ==> !m.transactional)
    && Distinct(records)
  }

  ghost predicate Accounted(s: State) {
    Books(s.schema, s.records, s.interrupted, InFlight(s))
  }

  lemma BooksBoth(schema: seq<Migration>, records: seq<Migration>, interrupted: multiset<Migration>,
                  inFlight: multiset<Migration>, m: Migration)
    requires Books(schema, records, interrupted, inFlight) && Distinct(records + [m])
    ensures Books(schema + [m], records + [m], interrupted, inFlight)
  {
    TransactionalPlus(schema, m);
    TransactionalPlus(records, m);
    assert multiset(schema + [m]) == multiset(schema) + multiset{m};
    assert multiset(records + [m]) == multiset(records) + multiset{m};
  }

  lemma BooksRan(schema: seq<Migration>, records: seq<Migration>, interrupted: multiset<Migration>, m: Migration)
    requires Books(schema, records, interrupted, multiset{}) && !m.transactional
    ensures Books(schema + [m], records, interrupted, multiset{m})
    ensures Books(schema + [m], records, interrupted + multiset{m}, multiset{})
  {
    TransactionalPlus(schema, m);
    assert multiset(schema + [m]) == multiset(schema) + multiset{m};
  }

  lemma BooksCutOff(schema: seq<Migration>, records: seq<Migration>, interrupted: multiset<Migration>, m: Migration)
    requires Books(schema, records, interrupted, multiset{m}) && !m.transactional
    ensures Books(schema, records, interrupted + multiset{m}, multiset{})
  {
    assert multiset(records) + interrupted + multiset{m}
      == multiset(records) + (interrupted + multiset{m}) + multiset{};
  }

  lemma BooksRecorded(schema: seq<Migration>, records: seq<Migration>, interrupted: multiset<Migration>, m: Migration)
    requires Books(schema, records, interrupted, multiset{m}) && !m.transactional && Distinct(records + [m])
    ensures Books(schema, records + [m], interrupted, multiset{})
  {
    TransactionalPlus(records, m);
    assert multiset(records + [m]) == multiset(records) + multiset{m};
    assert multiset(records) + interrupted + multiset{m} == multiset(records) + multiset{m} + interrupted + multiset{};
  }

  ghost predicate Sound(s: State) {
    Exclusive(s) && (forall r :: r in s.runners ==> RunnerSound(s, s.runners[r])) && Accounted(s)
  }

  lemma VersionsPlus(migrations: seq<Migration>, m: Migration)
    ensures Versions(migrations + [m]) == Versions(migrations) + {m.version}
  {
    assert forall x :: x in migrations + [m] <==> x in migrations || x == m;
  }

  lemma ExclusiveKept(s: State, step: Step)
    requires Exclusive(s) && Enabled(s, step)
    ensures Exclusive(Next(s, step))
  {}

  /** What a runner is about to record has no record yet. */
  lemma NotRecordedYet(s: State, r: nat)
    requires Sound(s) && r in s.runners && (AtPending(s.runners[r]) || AtUnrecorded(s.runners[r]))
    ensures Current(s.runners[r]).version !in Versions(s.records)
    ensures Distinct(s.records + [Current(s.runners[r])])
  {
    var runner, k := s.runners[r], s.runners[r].phase.k;
    assert RunnerSound(s, runner);
    assert runner.list[k].version !in Versions(runner.list[..k]);
    assert forall j :: 0 <= j < |s.records| ==> s.records[j].version in Versions(s.records);
  }

  /** What is in flight is what the runner at work is at. */
  lemma InFlightOf(s: State, r: nat)
    requires Exclusive(s) && r in s.runners && Holds(s.runners[r].phase)
    ensures InFlight(s) == if AtUnrecorded(s.runners[r]) then multiset{Current(s.runners[r])} else multiset{}
  {}

  lemma TransactAccounted(s: State, step: Step)
    requires Exclusive(s) && Accounted(s) && Enabled(s, step) && step.Transact?
    requires Distinct(s.records + [Current(s.runners[step.r])])
    ensures Accounted(Next(s, step))
  {
    InFlightOf(s, step.r);
    BooksBoth(s.schema, s.records, s.interrupted, multiset{}, Current(s.runners[step.r]));
    assert InFlight(Next(s, step)) == multiset{};
  }

  /** The books after the SQL of a no-transaction file. */
  lemma RunSqlBooks(s: State, step: Step)
    requires step.RunSql? && Enabled(s, step) && Books(s.schema, s.records, s.interrupted, multiset{})
    ensures var m, s' := Current(s.runners[step.r]), Next(s, step);
      Books(s'.schema, s'.records, s'.interrupted, if step.answered then multiset{m} else multiset{})
  {
    BooksRan(s.schema, s.records, s.interrupted, Current(s.runners[step.r]));
  }

  lemma RunSqlAccounted(s: State, step: Step)
    requires Exclusive(s) && Accounted(s) && Enabled(s, step) && step.RunSql?
    ensures Accounted(Next(s, step))
  {
    InFlightOf(s, step.r);
    RunSqlBooks(s, step);
    RunSqlInFlight(s, step);
  }

  lemma RunSqlInFlight(s: State, step: Step)
    requires Exclusive(s) && Enabled(s, step) && step.RunSql?
    ensures InFlight(Next(s, step)) == if step.answered then multiset{Current(s.runners[step.r])} else multiset{}
  {}

  lemma RecordAccounted(s: State, step: Step)
    requires Exclusive(s) && Accounted(s) && Enabled(s, step) && step.Record?
    requires !Current(s.runners[step.r]).transactional && Distinct(s.records + [Current(s.runners[step.r])])
    ensures Accounted(Next(s, step))
  {
    InFlightOf(s, step.r);
    BooksRecorded(s.schema, s.records, s.interrupted, Current(s.runners[step.r]));
    BooksCutOff(s.schema, s.records, s.interrupted, Current(s.runners[step.r]));
    assert InFlight(Next(s, step)) == multiset{};
  }

  lemma CrashAccounted(s: State, step: Step)
    requires Exclusive(s) && Accounted(s) && Enabled(s, step) && step.Crash?
    requires AtUnrecorded(s.runners[step.r]) ==> !Current(s.runners[step.r]).transactional
    ensures Accounted(Next(s, step))
  {
    if AtUnrecorded(s.runners[step.r]) {
      InFlightOf(s, step.r);
      BooksCutOff(s.schema, s.records, s.interrupted, Current(s.runners[step.r]));
      assert InFlight(Next(s, step)) == multiset{};
    } else {
      assert InFlight(Next(s, step)) == InFlight(s);
    }
  }

  /** Whoever is at work without an effect in flight, before and after. */
  lemma QuietAccounted(s: State, step: Step)
    requires Exclusive(s) && Accounted(s) && Enabled(s, step) && !step.Start?
    requires step.Lock? || step.Check? || step.Skip? || step.Finish?
    ensures Accounted(Next(s, step))
  {
    assert InFlight(s) == multiset{};
    assert InFlight(Next(s, step)) == multiset{};
  }

  lemma StartAccounted(s: State, step: Step)
    requires Exclusive(s) && Accounted(s) && Enabled(s, step) && step.Start?
    ensures Accounted(Next(s, step))
  {
    assert InFlight(Next(s, step)) == InFlight(s);
  }

  lemma AccountedKept(s: State, step: Step)
    requires Sound(s) && Enabled(s, step)
    ensures Accounted(Next(s, step))
  {
    match step
    case Transact(r, _, _) =>
      NotRecordedYet(s, r);
      TransactAccounted(s, step);
    case RunSql(_, _, _) => RunSqlAccounted(s, step);
    case Record(r, _, _) =>
      assert RunnerSound(s, s.runners[r]);
      NotRecordedYet(s, r);
      RecordAccounted(s, step);
    case Crash(r) =>
      assert RunnerSound(s, s.runners[r]);
      CrashAccounted(s, step);
    case Start(_, _) => StartAccounted(s, step);
    case _ => QuietAccounted(s, step);
  }

  lemma VersionsUpTo(list: seq<Migration>, k: nat)
    requires k < |list|
    ensures Versions(list[..k + 1]) == Versions(list[..k]) + {list[k].version}
  {
    assert list[..k + 1] == list[..k] + [list[k]];
    VersionsPlus(list[..k], list[k]);
  }

  lemma InStepAfter(s: State, runner: Runner, k: nat, s': State, runner': Runner)
    requires k < |runner.list| && InStep(s, runner, k) && s'.records == s.records + [runner.list[k]]
    requires runner'.list == runner.list && runner'.applied == runner.applied
    requires runner'.done == runner.done + [runner.list[k].version]
    ensures InStep(s', runner', k + 1)
  {
    VersionsUpTo(runner.list, k);
    VersionsPlus(s.records, runner.list[k]);
    assert DoneSet(runner') == DoneSet(runner) + {runner.list[k].version};
  }

  lemma OwnRecordKept(s: State, step: Step)
    requires step.r in s.runners && RunnerSound(s, s.runners[step.r]) && Enabled(s, step)
    requires step.Transact? || step.Record?
    ensures RunnerSound(Next(s, step), Next(s, step).runners[step.r])
  {
    var runner, s' := s.runners[step.r], Next(s, step);
    if s'.runners[step.r].phase.Applying? {
      InStepAfter(s, runner, runner.phase.k, s', s'.runners[step.r]);
    }
  }

  lemma CheckKept(s: State, r: nat)
    requires r in s.runners && RunnerSound(s, s.runners[r]) && Enabled(s, Check(r))
    ensures RunnerSound(Next(s, Check(r)), Next(s, Check(r)).runners[r])
  {
    assert s.runners[r].list[..0] == [];
  }

  lemma SkipKept(s: State, r: nat)
    requires r in s.runners && RunnerSound(s, s.runners[r]) && Enabled(s, Skip(r))
    ensures RunnerSound(Next(s, Skip(r)), Next(s, Skip(r)).runners[r])
  {
    VersionsUpTo(s.runners[r].list, s.runners[r].phase.k);
  }

  lemma FinishKept(s: State, r: nat)
    requires r in s.runners && RunnerSound(s, s.runners[r]) && Enabled(s, Finish(r))
    ensures RunnerSound(Next(s, Finish(r)), Next(s, Finish(r)).runners[r])
  {
    var list := s.runners[r].list;
    assert list[..|list|] == list;
  }

  /** The runner that takes the step. */
  lemma OwnStepKept(s: State, step: Step)
    requires Sound(s) && Enabled(s, step) && step.r in Next(s, step).runners
    ensures RunnerSound(Next(s, step), Next(s, step).runners[step.r])
  {
    if !step.Start? {
      assert RunnerSound(s, s.runners[step.r]);
    }
    match step
    case Transact(_, _, _) => OwnRecordKept(s, step);
    case Record(_, _, _) => OwnRecordKept(s, step);
    case Check(r) => CheckKept(s, r);
    case Skip(r) => SkipKept(s, r);
    case Finish(r) => FinishKept(s, r);
    case _ =>
  }

  /** Records only grow. */
  lemma RecordsGrow(s: State, step: Step)
    requires Enabled(s, step)
    ensures s.records <= Next(s, step).records && Versions(s.records) <= Versions(Next(s, step).records)
  {
    assert forall m :: m in s.records ==> m in Next(s, step).records;
  }

  lemma StepKeeps(s: State, step: Step)
    requires Sound(s) && Enabled(s, step)
    ensures Sound(Next(s, step))
  {
    var s' := Next(s, step);
    ExclusiveKept(s, step);
    AccountedKept(s, step);
    RecordsGrow(s, step);
    forall r | r in s'.runners ensures RunnerSound(s', s'.runners[r]) {
      if r == step.r {
        OwnStepKept(s, step);
      } else {
        OthersKept(s, step, r);
      }
    }
  }

  lemma OthersKept(s: State, step: Step, r: nat)
    requires Sound(s) && Enabled(s, step) && r != step.r && r in s.runners
    ensures r in Next(s, step).runners && RunnerSound(Next(s, step), Next(s, step).runners[r])
  {
    assert RunnerSound(s, s.runners[r]);
    RecordsGrow(s, step);
    assert Holds(s.runners[r].phase) ==> s.lock == Some(r);
  }

  lemma {:induction false} RunKeeps(states: seq<State>, steps: seq<Step>, i: nat)
    requires Run(states, steps) && i < |states|
    ensures Sound(states[i])
  {
    if i > 0 {
      RunKeeps(states, steps, i - 1);
      StepKeeps(states[i - 1], steps[i - 1]);
    }
  }

  /** In every run, whoever crashes: the records name exactly the transactional migrations that took
      effect, each once and in that order; and every other effect is that of a no-transaction file
      that was cut off before its record, once for each time that it was. */
  lemma EffectsAreRecorded(states: seq<State>, steps: seq<Step>, i: nat)
    requires Run(states, steps) && i < |states|
    ensures var s := states[i];
      && Transactional(s.schema) == Transactional(s.records) && Distinct(s.records)
      && multiset(s.schema) == multiset(s.records) + s.interrupted + InFlight(s)
      && forall m :: m in s.interrupted ==> !m.transactional
  {
    RunKeeps(states, steps, i);
  }

  /** A file that was applied and then edited or removed stops a run at its check. */
  lemma EditedFileStops(s: State, r: nat, recorded: Migration)
    requires Enabled(s, Check(r)) && recorded in s.records && !Unchanged(s.runners[r].list, recorded)
    ensures Next(s, Check(r)).runners[r].phase.Stopped? && Next(s, Check(r)).lock.None?
    ensures Next(s, Check(r)).schema == s.schema && Next(s, Check(r)).records == s.records
  {}

  // ----- list order -----

  /** Every runner's files are the first of one growing list, and so are the records. */
  ghost predicate AppendOnly(master: seq<Migration>, s: State) {
    && Distinct(master)
    && (forall r :: r in s.runners ==> s.runners[r].list <= master)
    && s.records <= master
  }

  /** The first file without a record comes right after the records. */
  lemma FirstUnrecorded(master: seq<Migration>, records: seq<Migration>, list: seq<Migration>, k: nat)
    requires Distinct(master) && records <= master && list <= master && k < |list|
    requires Versions(list[..k]) <= Versions(records) && list[k].version !in Versions(records)
    ensures k == |records|
  {
    var n := |records|;
    assert n < |list| ==> list[n] == master[n];
    assert forall j :: 0 <= j < |list| ==> (list[j].version in Versions(records) <==> j < n) by {
      assert forall j :: 0 <= j < n ==> records[j] in records;
      assert forall j :: 0 <= j < n ==> records[j] == master[j];
    }
    assert forall j :: 0 <= j < k ==> list[j].version in Versions(list[..k]) by {
      forall j | 0 <= j < k ensures list[j].version in Versions(list[..k]) {
        assert list[..k][j] == list[j];
      }
    }
  }

  lemma NextRecord(master: seq<Migration>, records: seq<Migration>, list: seq<Migration>)
    requires records <= master && list <= master && |records| < |list|
    ensures records + [list[|records|]] <= master
  {}

  /** A runner keeps its files from start to end. */
  lemma ListStays(s: State, step: Step, r: nat)
    requires Enabled(s, step) && r in Next(s, step).runners
    ensures if r in s.runners then Next(s, step).runners[r].list == s.runners[r].list
      else step.Start? && Next(s, step).runners[r].list == step.list
  {}

  lemma NextRecordFollows(master: seq<Migration>, s: State, r: nat)
    requires Sound(s) && AppendOnly(master, s)
    requires r in s.runners && (AtPending(s.runners[r]) || AtUnrecorded(s.runners[r]))
    ensures s.records + [Current(s.runners[r])] <= master
  {
    var runner := s.runners[r];
    assert RunnerSound(s, runner);
    NotRecordedYet(s, r);
    FirstUnrecorded(master, s.records, runner.list, runner.phase.k);
    NextRecord(master, s.records, runner.list);
  }

  lemma AppendOnlyKept(master: seq<Migration>, s: State, step: Step)
    requires Sound(s) && AppendOnly(master, s) && Enabled(s, step)
    requires step.Start? ==> step.list <= master
    ensures AppendOnly(master, Next(s, step))
  {
    forall r | r in Next(s, step).runners ensures Next(s, step).runners[r].list <= master {
      ListStays(s, step, r);
    }
    if step.Transact? || step.Record? {
      NextRecordFollows(master, s, step.r);
    }
  }

  /** While files are only ever added at the end of the list, migrations are recorded in list order,
      with none left out. */
  lemma {:induction false} RecordedInListOrder(master: seq<Migration>, states: seq<State>, steps: seq<Step>, i: nat)
    requires Run(states, steps) && i < |states| && Distinct(master)
    requires forall k :: 0 <= k < |steps| && steps[k].Start? ==> steps[k].list <= master
    ensures AppendOnly(master, states[i])
  {
    if i > 0 {
      RecordedInListOrder(master, states, steps, i - 1);
      RunKeeps(states, steps, i - 1);
      AppendOnlyKept(master, states[i - 1], steps[i - 1]);
    }
  }

  // ----- the next run -----

  /** Run `q` of this list finds everything recorded. */
  ghost predicate NothingToDo(s: State, q: nat, list: seq<Migration>) {
    && Versions(list) <= Versions(s.records)
    && (q in s.runners && s.runners[q].list == list ==> Empty(s.runners[q], list))
  }

  /** What `NothingToDo` asks of the run. */
  predicate Empty(runner: Runner, list: seq<Migration>) {
    && runner.done == [] && !runner.phase.Unrecorded?
    && (runner.phase.Applying? ==> Versions(list) <= runner.applied)
  }

  lemma EmptyKept(s: State, step: Step, q: nat)
    requires Enabled(s, step) && q in s.runners && q in Next(s, step).runners && Empty(s.runners[q], s.runners[q].list)
    requires Versions(s.runners[q].list) <= Versions(s.records)
    ensures Empty(Next(s, step).runners[q], s.runners[q].list)
  {
    var list := s.runners[q].list;
    assert forall k :: 0 <= k < |list| ==> list[k].version in Versions(list);
    assert !AtPending(s.runners[q]);
  }

  lemma NothingToDoKept(s: State, step: Step, q: nat, list: seq<Migration>)
    requires Enabled(s, step) && NothingToDo(s, q, list)
    ensures NothingToDo(Next(s, step), q, list)
  {
    RecordsGrow(s, step);
    if q in Next(s, step).runners {
      ListStays(s, step, q);
      if q in s.runners && s.runners[q].list == list {
        EmptyKept(s, step, q);
      }
    }
  }

  /** Once a run has returned, no later run of the same files applies anything, whatever happens. */
  lemma {:induction false} NextRunIsEmpty(states: seq<State>, steps: seq<Step>, i: nat, j: nat, p: nat, q: nat)
    requires Run(states, steps) && i <= j < |states|
    requires p in states[i].runners && states[i].runners[p].phase.Returned?
    requires q in states[i].runners ==> states[i].runners[q].phase.Waiting?
    ensures NothingToDo(states[j], q, states[i].runners[p].list)
  {
    if i == j {
      RunKeeps(states, steps, i);
      assert RunnerSound(states[i], states[i].runners[p]);
      assert q in states[i].runners ==> RunnerSound(states[i], states[i].runners[q]);
    } else {
      NextRunIsEmpty(states, steps, i, j - 1, p, q);
      NothingToDoKept(states[j - 1], steps[j - 1], q, states[i].runners[p].list);
    }
  }
}
