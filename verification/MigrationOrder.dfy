/** In which order any number of runners record the migrations (migrate.ts), whatever files each of them
    has: a file that was added before an applied one is applied after it. */
module MigrationOrder {
  import opened Wrappers
  import opened Migrate
  import opened MigrateFleet

  /** The file of version `v` stands before that of `w`. */
  ghost predicate Before(list: seq<Migration>, v: string, w: string) {
    exists x: nat, y: nat :: x < y < |list| && list[x].version == v && list[y].version == w
  }

  ghost predicate InListOrder(migrations: seq<Migration>, list: seq<Migration>) {
    forall a, b :: 0 <= a < b < |migrations| ==> Before(list, migrations[a].version, migrations[b].version)
  }

  /** No file without a record stands before one with a record. */
  ghost predicate NoGap(records: seq<Migration>, list: seq<Migration>) {
    forall x, y :: 0 <= x < y < |list| && list[y].version in Versions(records) ==>
      list[x].version in Versions(records)
  }

  // ----- the pending files after the records -----

  lemma {:induction false} PendingInOrder(list: seq<Migration>, applied: set<string>)
    ensures InListOrder(Pending(list, applied), list)
  {
    if list != [] {
      var n := |list| - 1;
      PendingInOrder(list[..n], applied);
      PendingIsTheRest(list[..n], applied);
      OneMoreInOrder(list, Pending(list[..n], applied));
    }
  }

  lemma OneMoreInOrder(list: seq<Migration>, rest: seq<Migration>)
    requires list != []
    requires InListOrder(rest, list[..|list| - 1]) && forall m :: m in rest ==> m in list[..|list| - 1]
    ensures InListOrder(rest, list) && InListOrder(rest + [list[|list| - 1]], list)
  {
    var n := |list| - 1;
    forall a, b | 0 <= a < b < |rest| ensures Before(list, rest[a].version, rest[b].version) {
      LongerList(list, n, rest[a].version, rest[b].version);
    }
    forall a | 0 <= a < |rest| ensures Before(list, rest[a].version, list[n].version) {
      assert rest[a] in rest && rest[a] in list[..n];
      var x :| 0 <= x < n && list[x] == rest[a];
    }
  }

  lemma LongerList(list: seq<Migration>, n: nat, v: string, w: string)
    requires n <= |list| && Before(list[..n], v, w)
    ensures Before(list, v, w)
  {
    var x: nat, y: nat :| x < y < n && list[..n][x].version == v && list[..n][y].version == w;
    assert list[x].version == v && list[y].version == w;
  }

  /** Positions are unique. */
  lemma NotBoth(list: seq<Migration>, v: string, w: string)
    requires Distinct(list)
    ensures !(Before(list, v, w) && Before(list, w, v))
  {
  }

  lemma InListOrderParts(before: seq<Migration>, after: seq<Migration>, list: seq<Migration>)
    ensures InListOrder(before + after, list) <==>
      InListOrder(before, list) && InListOrder(after, list) && AllBefore(before, after, list)
  {
    var all := before + after;
    if InListOrder(all, list) {
      forall a, b | 0 <= a < b < |before| ensures Before(list, before[a].version, before[b].version) {
        assert all[a] == before[a] && all[b] == before[b];
      }
      forall a, b | 0 <= a < b < |after| ensures Before(list, after[a].version, after[b].version) {
        assert all[|before| + a] == after[a] && all[|before| + b] == after[b];
      }
      forall a, b | 0 <= a < |before| && 0 <= b < |after|
        ensures Before(list, before[a].version, after[b].version)
      {
        assert all[a] == before[a] && all[|before| + b] == after[b];
      }
    }
  }

  ghost predicate AllBefore(before: seq<Migration>, after: seq<Migration>, list: seq<Migration>) {
    forall a, b :: 0 <= a < |before| && 0 <= b < |after| ==> Before(list, before[a].version, after[b].version)
  }

  lemma PendingAfterRecords(records: seq<Migration>, list: seq<Migration>)
    requires Distinct(list) && Consistent(records, list)
    ensures AllBefore(records, Pending(list, Versions(records)), list) <==> NoGap(records, list)
  {
    var pending := Pending(list, Versions(records));
    PendingIsTheRest(list, Versions(records));
    if NoGap(records, list) {
      forall a, b | 0 <= a < |records| && 0 <= b < |pending|
        ensures Before(list, records[a].version, pending[b].version)
      {
        RecordedFirst(records, list, records[a], pending[b]);
      }
    }
    if !NoGap(records, list) {
      var x, y :| 0 <= x < y < |list| && list[y].version in Versions(records)
        && list[x].version !in Versions(records);
      GapShows(records, list, x, y);
    }
  }

  lemma GapShows(records: seq<Migration>, list: seq<Migration>, x: nat, y: nat)
    requires Distinct(list) && x < y < |list|
    requires list[y].version in Versions(records) && list[x].version !in Versions(records)
    ensures !AllBefore(records, Pending(list, Versions(records)), list)
  {
    var pending := Pending(list, Versions(records));
    PendingIsTheRest(list, Versions(records));
    var a :| 0 <= a < |records| && records[a].version == list[y].version;
    assert list[x] in pending;
    var b :| 0 <= b < |pending| && pending[b] == list[x];
    assert Before(list, list[x].version, list[y].version);
    NotBoth(list, list[x].version, list[y].version);
  }

  lemma RecordedFirst(records: seq<Migration>, list: seq<Migration>, recorded: Migration, m: Migration)
    requires NoGap(records, list) && Unchanged(list, recorded) && recorded in records
    requires m in list && m.version !in Versions(records)
    ensures Before(list, recorded.version, m.version)
  {
    var file :| file in list && file.version == recorded.version;
    var x :| 0 <= x < |list| && list[x] == file;
    var y :| 0 <= y < |list| && list[y] == m;
    assert list[x].version in Versions(records);
  }

  // ----- the run at work -----

  predicate AtWork(s: State, r: nat) {
    r in s.runners && (s.runners[r].phase.Applying? || s.runners[r].phase.Unrecorded?)
  }

  /** What the run has recorded by now, after what it found. */
  ghost predicate Underway(s: State, r: nat, found: seq<Migration>, list: seq<Migration>) {
    && AtWork(s, r) && s.runners[r].list == list && s.runners[r].applied == Versions(found)
    && s.runners[r].phase.k <= |list|
    && s.records == found + Pending(list[..s.runners[r].phase.k], Versions(found))
  }

  predicate StillPending(runner: Runner)
    requires runner.phase.Unrecorded?
  {
    runner.phase.k < |runner.list| && runner.list[runner.phase.k].version !in runner.applied
  }

  /** Its own steps, one file after the other. */
  lemma OwnMove(s: State, step: Step)
    requires Enabled(s, step) && AtWork(s, step.r) && AtWork(Next(s, step), step.r)
    requires s.runners[step.r].phase.Unrecorded? ==> StillPending(s.runners[step.r])
    ensures var runner, runner' := s.runners[step.r], Next(s, step).runners[step.r];
      && runner'.list == runner.list && runner'.applied == runner.applied
      && if runner'.phase.k == runner.phase.k then Next(s, step).records == s.records
         else
           && runner'.phase.k == runner.phase.k + 1 <= |runner.list|
           && Next(s, step).records == s.records +
              if runner.list[runner.phase.k].version in runner.applied then [] else [runner.list[runner.phase.k]]
  {
  }

  lemma OwnMoveKeeps(s: State, step: Step, found: seq<Migration>, list: seq<Migration>)
    requires Enabled(s, step) && Underway(s, step.r, found, list) && AtWork(Next(s, step), step.r)
    requires s.runners[step.r].phase.Unrecorded? ==> StillPending(s.runners[step.r])
    ensures Underway(Next(s, step), step.r, found, list)
  {
    OwnMove(s, step);
    if s.runners[step.r].phase.k < |list| {
      PendingStep(list, s.runners[step.r].phase.k, Versions(found));
    }
  }

  lemma UnderwayKept(s: State, step: Step, r: nat, found: seq<Migration>, list: seq<Migration>)
    requires Exclusive(s) && (r in s.runners ==> RunnerSound(s, s.runners[r]))
    requires Enabled(s, step) && Underway(s, r, found, list) && AtWork(Next(s, step), r)
    ensures Underway(Next(s, step), r, found, list)
  {
    if step.r == r {
      OwnMoveKeeps(s, step, found, list);
    } else {
      OthersRest(s, step, r);
    }
  }

  /** While it holds the lock, nobody else writes. */
  lemma OthersRest(s: State, step: Step, r: nat)
    requires Exclusive(s) && Enabled(s, step) && AtWork(s, r) && step.r != r
    ensures Next(s, step).records == s.records && Next(s, step).runners[r] == s.runners[r]
  {
    assert s.lock == Some(r);
  }

  /** The check of `r` passes at step `i`, and its run is over at step `j`, without an error. */
  ghost predicate RunsThrough(states: seq<State>, steps: seq<Step>, r: nat, i: nat, j: nat) {
    && Run(states, steps) && i < j < |steps| && steps[i] == Check(r) && steps[j] == Finish(r)
    && forall n :: i < n <= j ==> AtWork(states[n], r)
  }

  lemma CheckPasses(s: State, r: nat)
    requires Enabled(s, Check(r)) && AtWork(Next(s, Check(r)), r)
    ensures Consistent(s.records, s.runners[r].list)
    ensures Underway(Next(s, Check(r)), r, s.records, s.runners[r].list)
  {
    assert Pending(s.runners[r].list[..0], Versions(s.records)) == [];
  }

  lemma SoundAt(states: seq<State>, steps: seq<Step>, r: nat, n: nat)
    requires Run(states, steps) && n < |states|
    ensures Exclusive(states[n]) && (r in states[n].runners ==> RunnerSound(states[n], states[n].runners[r]))
  {
    RunKeeps(states, steps, n);
  }

  lemma OneMoveOn(states: seq<State>, steps: seq<Step>, r: nat, n: nat, found: seq<Migration>, list: seq<Migration>)
    requires Run(states, steps) && n < |steps|
    requires Underway(states[n], r, found, list) && AtWork(states[n + 1], r)
    ensures Underway(states[n + 1], r, found, list)
  {
    SoundAt(states, steps, r, n);
    UnderwayKept(states[n], steps[n], r, found, list);
  }

  lemma {:induction false} StillUnderway(states: seq<State>, steps: seq<Step>, r: nat, i: nat, j: nat, n: nat)
    requires RunsThrough(states, steps, r, i, j) && i < n <= j && r in states[i].runners
    ensures Underway(states[n], r, states[i].records, states[i].runners[r].list)
  {
    if n == i + 1 {
      CheckPassesAt(states, steps, r, i);
    } else {
      StillUnderway(states, steps, r, i, j, n - 1);
      OneMoveOn(states, steps, r, n - 1, states[i].records, states[i].runners[r].list);
    }
  }

  lemma CheckPassesAt(states: seq<State>, steps: seq<Step>, r: nat, i: nat)
    requires Run(states, steps) && i < |steps| && steps[i] == Check(r) && AtWork(states[i + 1], r)
    ensures r in states[i].runners && Consistent(states[i].records, states[i].runners[r].list)
    ensures Underway(states[i + 1], r, states[i].records, states[i].runners[r].list)
  {
    CheckPasses(states[i], r);
  }

  /** A run that ends without an error, among any others: it records the pending files after what it found,
      and leaves the records in the order of its files exactly when it found them in that order with no
      unrecorded file before a recorded one. */
  lemma OrderExactly(states: seq<State>, steps: seq<Step>, r: nat, i: nat, j: nat)
    requires RunsThrough(states, steps, r, i, j) && r in states[i].runners
    ensures var found, list := states[i].records, states[i].runners[r].list;
      && states[j + 1].records == found + Pending(list, Versions(found))
      && (InListOrder(states[j + 1].records, list) <==> InListOrder(found, list) && NoGap(found, list))
  {
    var found, list := states[i].records, states[i].runners[r].list;
    SoundAt(states, steps, r, i);
    StillUnderway(states, steps, r, i, j, j);
    assert Enabled(states[j], steps[j]) && states[j + 1] == Next(states[j], steps[j]);
    assert list[..states[j].runners[r].phase.k] == list;
    CheckPassesAt(states, steps, r, i);
    PendingInOrder(list, Versions(found));
    InListOrderParts(found, Pending(list, Versions(found)), list);
    PendingAfterRecords(found, list);
  }

  // ----- a file that came earlier in the list -----

  ghost predicate Reached(s: State) {
    exists states: seq<State>, steps: seq<Step> :: EndsIn(states, steps, s)
  }

  ghost predicate EndsIn(states: seq<State>, steps: seq<Step>, s: State) {
    Run(states, steps) && states[|steps|] == s
  }

  lemma ReachedNext(s: State, step: Step) returns (s': State)
    requires Reached(s) && Enabled(s, step)
    ensures s' == Next(s, step) && Reached(s')
  {
    var states: seq<State>, steps: seq<Step> :| EndsIn(states, steps, s);
    s' := Next(s, step);
    assert EndsIn(states + [s'], steps + [step], s');
  }

  /** From the start of a run to its first pending file. */
  lemma Opened(s: State, r: nat, list: seq<Migration>) returns (s': State)
    requires Reached(s) && r !in s.runners && s.lock == None && Distinct(list) && Consistent(s.records, list)
    ensures Reached(s') && s'.records == s.records
    ensures s'.runners == s.runners[r := Runner(list, Versions(s.records), [], Applying(0))]
  {
    s' := ReachedNext(s, Start(r, list));
    s' := ReachedNext(s', Lock(r));
    s' := ReachedNext(s', Check(r));
  }

  lemma OneApplied(s: State, r: nat) returns (s': State)
    requires Reached(s) && r in s.runners && AtPending(s.runners[r]) && Current(s.runners[r]).transactional
    ensures Reached(s') && s'.records == s.records + [Current(s.runners[r])] && s'.lock == s.lock
    ensures s'.runners == GoOn(s, r).runners
  {
    s' := ReachedNext(s, Transact(r, true, true));
  }

  lemma OneSkipped(s: State, r: nat) returns (s': State)
    requires Reached(s) && Enabled(s, Skip(r))
    ensures Reached(s') && s'.records == s.records && s'.lock == s.lock
    ensures s'.runners == s.runners[r := s.runners[r].(phase := Applying(s.runners[r].phase.k + 1))]
  {
    s' := ReachedNext(s, Skip(r));
  }

  lemma Closed(s: State, r: nat) returns (s': State)
    requires Reached(s) && Enabled(s, Finish(r))
    ensures Reached(s') && s'.records == s.records && s'.lock == None
    ensures s'.runners == s.runners[r := s.runners[r].(phase := Returned)]
  {
    s' := ReachedNext(s, Finish(r));
  }

  /** The first run, of one file. */
  lemma FirstRun(b: Migration) returns (s: State)
    requires b.transactional
    ensures Reached(s) && s.records == [b] && s.lock == None && 1 !in s.runners
  {
    s := State([], [], None, map[], multiset{});
    assert EndsIn([s], [], s);
    s := Opened(s, 0, [b]);
    s := OneApplied(s, 0);
    s := Closed(s, 0);
  }

  /** The second one, with a file more before it. */
  lemma SecondRun(s: State, a: Migration, b: Migration) returns (s': State)
    requires a.transactional && a.version != b.version
    requires Reached(s) && s.records == [b] && s.lock == None && 1 !in s.runners
    ensures Reached(s') && s'.records == [b, a]
    ensures 1 in s'.runners && s'.runners[1].list == [a, b] && s'.runners[1].phase.Returned?
  {
    assert Unchanged([a, b], b) by { assert b in [a, b]; }
    assert Versions([b]) == {b.version};
    s' := Opened(s, 1, [a, b]);
    s' := OneApplied(s', 1);
    s' := OneSkipped(s', 1);
    s' := Closed(s', 1);
  }

  /** For any two files there are runs that record the second one first: one of a list that holds it alone,
      and one after the other file was put before it. Neither reports anything. */
  lemma AppliedOutOfOrder(a: Migration, b: Migration) returns (s: State)
    requires a.transactional && b.transactional && a.version != b.version
    ensures Reached(s) && s.records == [b, a] && !InListOrder(s.records, [a, b])
    ensures 1 in s.runners && s.runners[1].list == [a, b] && s.runners[1].phase.Returned?
  {
    s := FirstRun(b);
    s := SecondRun(s, a, b);
    FirstNotSecond(a, b);
  }

  lemma FirstNotSecond(a: Migration, b: Migration)
    requires a.version != b.version
    ensures !InListOrder([b, a], [a, b])
  {
    var list, records := [a, b], [b, a];
    assert list[0].version == a.version && list[1].version == b.version;
    assert Before(list, a.version, b.version);
    NotBoth(list, a.version, b.version);
    assert !Before(list, records[0].version, records[1].version);
  }
}
