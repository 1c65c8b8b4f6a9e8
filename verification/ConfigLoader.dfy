/** Merging environment, YAML file and defaults (config.loader.ts). How a value is written as text is a
    parameter. */
module ConfigLoader {
  import opened Wrappers
  import opened ConfigFile

  datatype Source = FromEnv | FromYaml | FromDefault

  /** A key as configSnapshot shows it. */
  datatype Setting = Unset | Set(value: string, source: Source)

  /** A value of the file counts unless it is null or written as nothing. */
  function Given(value: Option<Yaml>, serialize: Yaml -> string): Option<string> {
    if value.Some? && !value.value.Null? && serialize(value.value) != "" then Some(serialize(value.value)) else None
  }

  function Structured(file: Yaml, entry: Entry, serialize: Yaml -> string): Option<string> {
    if entry.yaml.Some? then Given(Nested(file, SplitPath(entry.yaml.value)), serialize) else None
  }

  function Flat(file: Yaml, key: string, serialize: Yaml -> string): Option<string>
    requires file.Mapping?
  {
    Given(if key in file.entries then Some(file.entries[key]) else None, serialize)
  }

  function DefaultOf(entry: Entry, appDefaults: map<string, string>): Option<string> {
    if entry.key in appDefaults then Some(appDefaults[entry.key]) else entry.byDefault
  }

  /** What a key ends up as: the first that has a value of the environment, the structured and the flat
      YAML key, the app's default and the registry's. */
  function Effective(env: map<string, string>, file: Yaml, entry: Entry, appDefaults: map<string, string>,
                     serialize: Yaml -> string): Setting
    requires file.Mapping?
  {
    if entry.key in env && env[entry.key] != "" then Set(env[entry.key], FromEnv)
    else if Structured(file, entry, serialize).Some? then Set(Structured(file, entry, serialize).value, FromYaml)
    else if Flat(file, entry.key, serialize).Some? then Set(Flat(file, entry.key, serialize).value, FromYaml)
    else if DefaultOf(entry, appDefaults).Some? then Set(DefaultOf(entry, appDefaults).value, FromDefault)
    else Unset
  }

  /** The value of the file at a place, if it is there, not null and not written as nothing. */
  predicate Written(at: Option<Yaml>, serialize: Yaml -> string) {
    at.Some? && !at.value.Null? && serialize(at.value) != ""
  }

  /** What stands at a key's YAML path, and at its own name at the top. */
  function AtPath(file: Yaml, entry: Entry): Option<Yaml> {
    if entry.yaml.None? then None else Nested(file, SplitPath(entry.yaml.value))
  }

  function AtTop(file: Yaml, entry: Entry): Option<Yaml>
    requires file.Mapping?
  {
    if entry.key in file.entries then Some(file.entries[entry.key]) else None
  }

  /** The order of the sources: each counts only where none before it has a value. */
  lemma SourcesInOrder(env: map<string, string>, file: Yaml, entry: Entry, appDefaults: map<string, string>,
                       serialize: Yaml -> string)
    requires file.Mapping?
    ensures var effective := Effective(env, file, entry, appDefaults, serialize);
      var atPath, atTop := AtPath(file, entry), AtTop(file, entry);
      if entry.key in env && |env[entry.key]| > 0 then effective == Set(env[entry.key], FromEnv)
      else if Written(atPath, serialize) then effective == Set(serialize(atPath.value), FromYaml)
      else if Written(atTop, serialize) then effective == Set(serialize(atTop.value), FromYaml)
      else if entry.key in appDefaults then effective == Set(appDefaults[entry.key], FromDefault)
      else if entry.byDefault.Some? then effective == Set(entry.byDefault.value, FromDefault)
      else effective == Unset
  {}

  function SettingOf(env: map<string, string>, sources: map<string, Source>, key: string): Setting {
    if key !in env then Unset else Set(env[key], if key in sources then sources[key] else FromEnv)
  }

  ghost predicate KeysUnique(registry: seq<Entry>) {
    forall i, j :: 0 <= i < j < |registry| ==> registry[i].key != registry[j].key
  }

  /** One step of the merge: a key that had a setting keeps it, another takes its candidate. */
  function Filled(before: Setting, candidate: Option<string>, source: Source): Setting {
    if before.Set? then before else if candidate.Some? then Set(candidate.value, source) else Unset
  }

  /** What is kept of a variable of the environment. */
  function Kept(value: Setting): Setting {
    if value.Set? && value.value != "" then Set(value.value, FromEnv) else Unset
  }

  /** The steps of the merge, one on the other, pick the first value there is. */
  lemma StepsPickFirst(env: map<string, string>, file: Yaml, entry: Entry, appDefaults: map<string, string>,
                       serialize: Yaml -> string)
    requires file.Mapping?
    ensures var kept := Kept(SettingOf(env, map[], entry.key));
      var structured := Filled(kept, Structured(file, entry, serialize), FromYaml);
      var flat := Filled(structured, Flat(file, entry.key, serialize), FromYaml);
      Filled(flat, DefaultOf(entry, appDefaults), FromDefault) == Effective(env, file, entry, appDefaults, serialize)
  {}

  class ConfigLoader {
    const registry: seq<Entry>
    const serialize: Yaml -> string
    var env: map<string, string>
    var sources: map<string, Source>

    constructor (registry: seq<Entry>, serialize: Yaml -> string, env: map<string, string>)
      ensures this.registry == registry && this.serialize == serialize && this.env == env && sources == map[]
    {
      this.registry, this.serialize, this.env, sources := registry, serialize, env, map[];
    }

    predicate Registered(key: string) {
      exists i :: 0 <= i < |registry| && registry[i].key == key
    }

    function Setting(key: string): Setting
      reads this
    {
      SettingOf(env, sources, key)
    }

    /** A source is recorded for exactly the registered keys that are set. */
    predicate Sourced()
      reads this
    {
      && (forall key :: key in sources ==> Registered(key) && key in env)
      && forall i :: 0 <= i < |registry| && registry[i].key in env ==> registry[i].key in sources
    }

    /** Keys of no entry are left alone. */
    twostate predicate OthersKept()
      reads this
    {
      forall key :: !Registered(key) ==> Setting(key) == old(Setting(key))
    }

    /** From the entry numbered `i` on, nothing is done yet. */
    twostate predicate Ahead(i: nat)
      reads this
    {
      forall j :: i <= j < |registry| ==> Setting(registry[j].key) == old(Setting(registry[j].key))
    }

    /** A variable of the environment and its source, for a key that had none. */
    method Put(key: string, value: string, source: Source)
      requires key !in env && Registered(key) && Sourced()
      modifies this
      ensures Setting(key) == Set(value, source) && Sourced()
      ensures forall other :: other != key ==> Setting(other) == old(Setting(other))
    {
      env, sources := env[key := value], sources[key := source];
    }

    method DropEmptyValues()
      requires sources == map[] && KeysUnique(registry)
      modifies `env
      ensures OthersKept()
      ensures forall e :: e in registry ==> Setting(e.key) == Kept(old(Setting(e.key)))
    {
      for i := 0 to |registry|
        invariant OthersKept() && Ahead(i)
        invariant forall j :: 0 <= j < i ==> Setting(registry[j].key) == Kept(old(Setting(registry[j].key)))
      {
        assert Registered(registry[i].key) && Setting(registry[i].key) == old(Setting(registry[i].key));
        if registry[i].key in env && env[registry[i].key] == "" {
          env := env - {registry[i].key};
        }
      }
    }

    method RecordEnvSources()
      requires KeysUnique(registry) && sources == map[]
      modifies `sources
      ensures forall key :: Setting(key) == old(Setting(key))
      ensures forall key :: key in sources ==> sources[key] == FromEnv
      ensures Sourced()
    {
      for i := 0 to |registry|
        invariant forall key :: key in sources ==> sources[key] == FromEnv && Registered(key) && key in env
        invariant forall j :: 0 <= j < i && registry[j].key in env ==> registry[j].key in sources
      {
        if registry[i].key in env {
          sources := sources[registry[i].key := FromEnv];
        }
      }
    }

    /** The entry has taken the value at its path, if its key was not set. */
    twostate predicate TookPath(file: Yaml, entry: Entry)
      reads this
    {
      Setting(entry.key) == Filled(old(Setting(entry.key)), Structured(file, entry, serialize), FromYaml)
    }

    method ReadStructured(file: Yaml)
      requires KeysUnique(registry) && Sourced()
      modifies this
      ensures OthersKept() && Sourced()
      ensures forall e :: e in registry ==>
        Setting(e.key) == Filled(old(Setting(e.key)), Structured(file, e, serialize), FromYaml)
    {
      for i := 0 to |registry|
        invariant OthersKept() && Sourced() && Ahead(i)
        invariant forall j :: 0 <= j < i ==> TookPath(file, registry[j])
      {
        var entry := registry[i];
        assert Registered(entry.key) && Setting(entry.key) == old(Setting(entry.key));
        if entry.yaml.None? { continue; }
        if entry.key in env { continue; }
        var value := GetNestedValue(file, entry.yaml.value);
        if value.None? || value.value.Null? { continue; }
        var serialized := serialize(value.value);
        if serialized == "" { continue; }
        Put(entry.key, serialized, FromYaml);
      }
      assert forall e :: e in registry ==> TookPath(file, e);
    }

    method ReadFlat(file: Yaml)
      requires KeysUnique(registry) && file.Mapping? && Sourced()
      modifies this
      ensures OthersKept() && Sourced()
      ensures forall e :: e in registry ==>
        Setting(e.key) == Filled(old(Setting(e.key)), Flat(file, e.key, serialize), FromYaml)
    {
      var keys := file.entries.Keys;
      while keys != {}
        invariant keys <= file.entries.Keys
        invariant OthersKept() && Sourced()
        invariant forall key :: key in keys || key !in file.entries ==> Setting(key) == old(Setting(key))
        invariant forall key :: Registered(key) && key in file.entries && key !in keys ==>
          Setting(key) == Filled(old(Setting(key)), Flat(file, key, serialize), FromYaml)
        decreases |keys|
      {
        var key :| key in keys;
        keys := keys - {key};
        assert Setting(key) == old(Setting(key));
        var value := file.entries[key];
        if value.Null? || !Registered(key) { continue; }
        if key in env || serialize(value) == "" { continue; }
        Put(key, serialize(value), FromYaml);
      }
      assert forall e :: e in registry ==> Registered(e.key);
    }

    method ApplyDefaults(appDefaults: map<string, string>)
      requires KeysUnique(registry) && Sourced()
      modifies this
      ensures OthersKept() && Sourced()
      ensures forall e :: e in registry ==>
        Setting(e.key) == Filled(old(Setting(e.key)), DefaultOf(e, appDefaults), FromDefault)
      // what is set stays; the app's default goes before the registry's
      ensures forall e :: e in registry && old(Setting(e.key)).Set? ==> Setting(e.key) == old(Setting(e.key))
      ensures forall e :: e in registry && old(Setting(e.key)).Unset? ==>
        Setting(e.key) ==
          if e.key in appDefaults then Set(appDefaults[e.key], FromDefault)
          else if e.byDefault.Some? then Set(e.byDefault.value, FromDefault) else Unset
    {
      for i := 0 to |registry|
        invariant OthersKept() && Sourced() && Ahead(i)
        invariant forall j :: 0 <= j < i ==>
          Setting(registry[j].key)
            == Filled(old(Setting(registry[j].key)), DefaultOf(registry[j], appDefaults), FromDefault)
      {
        var entry := registry[i];
        assert Registered(entry.key) && Setting(entry.key) == old(Setting(entry.key));
        var value := if entry.key in appDefaults then Some(appDefaults[entry.key]) else entry.byDefault;
        if entry.key !in env && value.Some? {
          Put(entry.key, value.value, FromDefault);
        }
      }
    }

    /** The merge. `document` is the parsed file, None when there is none. */
    method Load(document: Option<Yaml>, appDefaults: map<string, string>) returns (file: Yaml)
      requires KeysUnique(registry) && sources == map[]
      modifies this
      ensures file == if document.Some? && document.value.Mapping? then document.value else Mapping(map[])
      ensures forall e :: e in registry ==> Setting(e.key) == Effective(old(env), file, e, appDefaults, serialize)
      ensures OthersKept() && Sourced()
    {
      DropEmptyValues();
      RecordEnvSources();
      file := if document.Some? && document.value.Mapping? then document.value else Mapping(map[]);
      ReadStructured(file);
      ReadFlat(file);
      ApplyDefaults(appDefaults);
      forall e | e in registry ensures Setting(e.key) == Effective(old(env), file, e, appDefaults, serialize) {
        StepsPickFirst(old(env), file, e, appDefaults, serialize);
      }
    }
  }
}
