/** The migration runner (migrate.ts): one run on its own, and any number of runners that crash,
    under one advisory lock. */
module Migrate {
  import opened Wrappers

  datatype Migration = Migration(version: string, name: string, checksum: string, transactional: bool)

  function Versions(migrations: seq<Migration>): set<string> {
    set m | m in migrations :: m.version
  }

  ghost predicate Distinct(migrations: seq<Migration>) {
    forall i, j :: 0 <= i < j < |migrations| ==> migrations[i].version != migrations[j].version
  }

  /** The file of a recorded migration is there and unchanged. */
  predicate Unchanged(list: seq<Migration>, recorded: Migration) {
    exists m :: m in list && m.version == recorded.version && m.checksum == recorded.checksum
  }

  /** Its file is there, with another checksum. */
  predicate Edited(list: seq<Migration>, recorded: Migration) {
    && recorded.version in Versions(list)
    && forall m :: m in list && m.version == recorded.version ==> m.checksum != recorded.checksum
  }

  predicate Consistent(records: seq<Migration>, list: seq<Migration>) {
    forall recorded :: recorded in records ==> Unchanged(list, recorded)
  }

  function Pending(list: seq<Migration>, applied: set<string>): seq<Migration> {
    if list == [] then []
    else if list[|list| - 1].version in applied then Pending(list[..|list| - 1], applied)
    else Pending(list[..|list| - 1], applied) + [list[|list| - 1]]
  }

  function VersionList(migrations: seq<Migration>): seq<string> {
    seq(|migrations|, i requires 0 <= i < |migrations| => migrations[i].version)
  }

  lemma {:induction false} PendingIsTheRest(list: seq<Migration>, applied: set<string>)
    ensures forall m :: m in Pending(list, applied) <==> m in list && m.version !in applied
  {
    if list != [] { PendingIsTheRest(list[..|list| - 1], applied); }
  }

  // ----- one run -----

  /** How one migration ends: its effect and its record both there, or an error, with what the server
      did before it. */
  datatype Outcome = Applied | Failed(effect: bool, record: bool)

  /** A transaction leaves both or neither; without one the record comes after the effect. */
  predicate Possible(m: Migration, outcome: Outcome) {
    outcome.Failed? ==> if m.transactional then outcome.effect == outcome.record else outcome.record ==> outcome.effect
  }

  datatype Error = Missing | Changed | Broken(version: string)

  /** Exactly the transactional migrations with an effect have a record. */
  ghost predicate Agree(schema: seq<Migration>, records: seq<Migration>) {
    forall m: Migration :: m.transactional ==> (m in schema <==> m in records)
  }

  class Database {
    var records: seq<Migration>
    var schema: seq<Migration>
    var locked: bool

    constructor ()
      ensures records == [] && schema == [] && !locked
    {
      records, schema, locked := [], [], false;
    }

    /** The first recorded migration whose file is gone or changed. */
    method Verify(list: seq<Migration>) returns (trouble: Option<Error>)
      ensures trouble.None? <==> Consistent(records, list)
      // the same version with the same checksum, for every record
      ensures trouble.None? <==> forall recorded :: recorded in records ==>
        exists m :: m in list && m.version == recorded.version && m.checksum == recorded.checksum
      ensures trouble == Some(Changed) ==> exists recorded :: recorded in records && Edited(list, recorded)
      ensures trouble == Some(Missing) ==> exists recorded :: recorded in records && recorded.version !in Versions(list)
      ensures trouble.Some? ==> !trouble.value.Broken?
    {
      for i := 0 to |records|
        invariant forall j :: 0 <= j < i ==> Unchanged(list, records[j])
      {
        if records[i].version !in Versions(list) {
          assert records[i] in records && !Unchanged(list, records[i]);
          return Some(Missing);
        }
        if !Unchanged(list, records[i]) {
          assert records[i] in records && Edited(list, records[i]);
          return Some(Changed);
        }
      }
      trouble := None;
    }

    /** The loop over the list. */
    method ApplyPending(list: seq<Migration>, applied: set<string>, outcomes: Migration -> Outcome)
        returns (result: Result<seq<string>, Error>)
      modifies `records, `schema
      ensures InOrder(Pending(list, applied), outcomes, result, old(records), records, old(schema), schema)
    {
      var done: seq<string> := [];
      for i := 0 to |list|
        invariant done == VersionList(Pending(list[..i], applied))
        invariant records == old(records) + Pending(list[..i], applied)
        invariant schema == old(schema) + Pending(list[..i], applied)
        invariant forall m :: m in Pending(list[..i], applied) ==> outcomes(m).Applied?
      {
        PendingStep(list, i, applied);
        if list[i].version in applied { continue; }
        var m := list[i];
        var outcome := outcomes(m);
        if outcome.Failed? {
          PendingPrefix(list, i + 1, applied);
          if outcome.effect { schema := schema + [m]; }
          if outcome.record { records := records + [m]; }
          result := Err(Broken(m.version));
          ghost var n := |Pending(list[..i], applied)|;
          assert Pending(list, applied)[..n] == Pending(list[..i], applied) && Pending(list, applied)[n] == m;
          assert StoppedAt(Pending(list, applied), n, outcomes, result.error,
                           old(records), records, old(schema), schema);
          return;
        }
        schema, records, done := schema + [m], records + [m], done + [m.version];
      }
      assert list[..|list|] == list;
      result := Ok(done);
    }

    /** `outcomes` says how each migration that is tried ends. */
    method Migrate(list: seq<Migration>, outcomes: Migration -> Outcome) returns (result: Result<seq<string>, Error>)
      requires !locked && Distinct(list)
      requires forall m :: m in list ==> Possible(m, outcomes(m))
      modifies this
      ensures !locked
      // an applied file that changed or is gone stops the run before anything is done
      ensures !Consistent(old(records), list) ==>
        result.Err? && !result.error.Broken? && records == old(records) && schema == old(schema)
      // otherwise what is pending is applied in order, up to the first that fails
      ensures Consistent(old(records), list) ==>
        InOrder(Pending(list, Versions(old(records))), outcomes, result, old(records), records, old(schema), schema)
      // and the records go on naming the transactional migrations that took effect
      ensures Agree(old(schema), old(records)) ==> Agree(schema, records)
    {
      locked := true;
      var trouble := Verify(list);
      if trouble.Some? {
        result := Err(trouble.value);
      } else {
        PendingIsTheRest(list, Versions(records));
        result := ApplyPending(list, Versions(records), outcomes);
      }
      locked := false;
    }
  }

  /** The first `n` pending migrations were applied; the next failed, leaving what its outcome says. */
  ghost predicate StoppedAt(pending: seq<Migration>, n: nat, outcomes: Migration -> Outcome, error: Error,
                            records: seq<Migration>, records': seq<Migration>,
                            schema: seq<Migration>, schema': seq<Migration>)
  {
    && n < |pending| && error == Broken(pending[n].version)
    && var outcome := outcomes(pending[n]);
    && outcome.Failed?
    && records' == records + pending[..n] + (if outcome.record then [pending[n]] else [])
    && schema' == schema + pending[..n] + (if outcome.effect then [pending[n]] else [])
  }

  /** All of what is pending was applied and recorded, or it stopped at the first that failed. */
  ghost predicate InOrder(pending: seq<Migration>, outcomes: Migration -> Outcome, result: Result<seq<string>, Error>,
                          records: seq<Migration>, records': seq<Migration>,
                          schema: seq<Migration>, schema': seq<Migration>)
  {
    if result.Ok? then
      && result.value == VersionList(pending) && records' == records + pending && schema' == schema + pending
      && forall m :: m in pending ==> outcomes(m).Applied?
    else exists n :: StoppedAt(pending, n, outcomes, result.error, records, records', schema, schema')
  }

  lemma PendingStep(list: seq<Migration>, i: nat, applied: set<string>)
    requires i < |list|
    ensures Pending(list[..i + 1], applied)
      == Pending(list[..i], applied) + if list[i].version in applied then [] else [list[i]]
  {
    assert list[..i + 1][..i] == list[..i];
  }

  lemma {:induction false} PendingPrefix(list: seq<Migration>, i: nat, applied: set<string>)
    requires i <= |list|
    ensures Pending(list[..i], applied) <= Pending(list, applied)
    decreases |list| - i
  {
    if i < |list| {
      PendingPrefix(list, i + 1, applied);
      assert list[..i + 1][..i] == list[..i];
    } else {
      assert list[..i] == list;
    }
  }

  /** A completed run leaves the next one nothing to do. */
  lemma CompletedRunIsFinal(records: seq<Migration>, list: seq<Migration>)
    ensures Pending(list, Versions(records + Pending(list, Versions(records)))) == []
  {
    var pending := Pending(list, Versions(records));
    var after := Versions(records + pending);
    PendingIsTheRest(list, Versions(records));
    PendingIsTheRest(list, after);
    forall m | m in list ensures m.version in after {
      if m.version !in Versions(records) {
        assert m in records + pending;
      } else {
        var recorded :| recorded in records && recorded.version == m.version;
        assert recorded in records + pending;
      }
    }
    if Pending(list, after) != [] {
      assert Pending(list, after)[0] in Pending(list, after);
      assert false;
    }
  }
}
