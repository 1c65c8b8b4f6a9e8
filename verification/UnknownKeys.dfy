/** The check for YAML keys nothing reads (unknownKeys in config.loader.ts), against what the merge
    does read. */
module UnknownKeys {
  import opened Wrappers
  import opened ConfigFile
  import ConfigLoader

  datatype Registry = Registry(entries: seq<Entry>) {
    predicate HasPath(path: string) {
      exists i :: 0 <= i < |entries| && entries[i].yaml == Some(path)
    }

    predicate HasKey(key: string) {
      exists i :: 0 <= i < |entries| && entries[i].key == key
    }
  }

  function PathTo(prefix: string, key: string): string {
    if prefix == "" then key else prefix + "." + key
  }

  predicate Known(registry: Registry, prefix: string, key: string) {
    registry.HasPath(PathTo(prefix, key)) || (prefix == "" && registry.HasKey(key))
  }

  /** A value of the file that is not a mapping, by the keys that lead to it. */
  predicate IsLeaf(node: Yaml, parts: seq<string>)
    decreases |parts|
  {
    && node.Mapping? && |parts| >= 1 && parts[0] in node.entries
    && var value := node.entries[parts[0]];
    if value.Mapping? then |parts| > 1 && IsLeaf(value, parts[1..]) else |parts| == 1
  }

  /** A leaf that is reached without passing a known path. */
  predicate Reported(registry: Registry, node: Yaml, prefix: string, parts: seq<string>)
    decreases |parts|
  {
    && node.Mapping? && |parts| >= 1 && parts[0] in node.entries && !Known(registry, prefix, parts[0])
    && var value := node.entries[parts[0]];
    if value.Mapping? then |parts| > 1 && Reported(registry, value, PathTo(prefix, parts[0]), parts[1..])
    else |parts| == 1
  }

  /** `walk`: the leaves below a node that are reported, whatever the order of its keys. */
  method Walk(registry: Registry, node: Yaml, prefix: string) returns (unknown: set<seq<string>>)
    requires node.Mapping?
    ensures forall parts :: parts in unknown <==> Reported(registry, node, prefix, parts)
    decreases node
  {
    unknown := {};
    var keys := node.entries.Keys;
    while keys != {}
      invariant keys <= node.entries.Keys
      invariant forall parts ::
        parts in unknown <==> |parts| >= 1 && parts[0] !in keys && Reported(registry, node, prefix, parts)
      decreases |keys|
    {
      var key :| key in keys;
      keys := keys - {key};
      if Known(registry, prefix, key) { continue; }
      var value := node.entries[key];
      if value.Mapping? {
        var below := Walk(registry, value, PathTo(prefix, key));
        ghost var before := unknown;
        unknown := unknown + set parts | parts in below :: [key] + parts;
        forall parts
          ensures parts in unknown <==> |parts| >= 1 && parts[0] !in keys && Reported(registry, node, prefix, parts)
        {
          if |parts| >= 1 && parts[0] == key {
            assert parts == [key] + parts[1..];
            assert parts in unknown <==> parts[1..] in below;
          }
        }
      } else {
        unknown := unknown + {[key]};
        assert forall parts: seq<string> :: |parts| == 1 && parts[0] == key ==> parts == [key];
      }
    }
  }

  method FindUnknown(registry: Registry, file: Yaml) returns (unknown: set<seq<string>>)
    requires file.Mapping?
    ensures forall parts :: parts in unknown <==> Reported(registry, file, "", parts)
  {
    unknown := Walk(registry, file, "");
  }

  // ----- what the merge reads -----

  /** The merge looks up this place, or something above it. */
  ghost predicate Read(registry: Registry, parts: seq<string>) {
    exists i :: 0 <= i < |registry.entries| && ReadBy(registry.entries[i], parts)
  }

  predicate ReadBy(entry: Entry, parts: seq<string>) {
    (entry.yaml.Some? && SplitPath(entry.yaml.value) <= parts) || (parts != [] && entry.key == parts[0])
  }

  predicate NonEmptyParts(parts: seq<string>) {
    forall i :: 0 <= i < |parts| ==> parts[i] != ""
  }

  ghost predicate Plain(parts: seq<string>) {
    NonEmptyParts(parts) && forall i :: 0 <= i < |parts| ==> DotFree(parts[i])
  }

  /** No registered path has an empty part. */
  predicate PathsWellFormed(registry: Registry) {
    forall i :: 0 <= i < |registry.entries| && registry.entries[i].yaml.Some? ==>
      NonEmptyParts(SplitPath(registry.entries[i].yaml.value))
  }

  /** On the way to a reported leaf there is no registered path. */
  lemma {:induction false} NoPathOnTheWay(registry: Registry, node: Yaml, prefix: string, parts: seq<string>, m: nat)
    requires Reported(registry, node, prefix, parts) && 1 <= m <= |parts| && NonEmptyParts(parts[..m])
    ensures !registry.HasPath(PathTo(prefix, Join(parts[..m])))
    decreases m
  {
    assert parts[..m][0] == parts[0] != "";
    if m > 1 {
      assert parts[..m][1..] == parts[1..][..m - 1];
      NoPathOnTheWay(registry, node.entries[parts[0]], PathTo(prefix, parts[0]), parts[1..], m - 1);
      assert PathTo(PathTo(prefix, parts[0]), Join(parts[1..][..m - 1])) == PathTo(prefix, Join(parts[..m]));
    }
  }

  /** Nothing that is reported is ever read. */
  lemma ReportedIsNotRead(registry: Registry, file: Yaml, parts: seq<string>)
    requires PathsWellFormed(registry) && Reported(registry, file, "", parts)
    ensures !Read(registry, parts)
  {
    forall i | 0 <= i < |registry.entries| ensures !ReadBy(registry.entries[i], parts) {
      var entry := registry.entries[i];
      if entry.yaml.Some? && SplitPath(entry.yaml.value) <= parts {
        var m := |SplitPath(entry.yaml.value)|;
        assert parts[..m] == SplitPath(entry.yaml.value);
        JoinOfSplit(entry.yaml.value);
        NoPathOnTheWay(registry, file, "", parts, m);
        assert false;
      }
    }
  }

  /** A leaf that is not reported lies below a known path. */
  lemma {:induction false} SomePathOnTheWay(registry: Registry, node: Yaml, prefix: string, parts: seq<string>)
      returns (m: nat)
    requires IsLeaf(node, parts) && !Reported(registry, node, prefix, parts) && NonEmptyParts(parts)
    ensures 1 <= m <= |parts|
    ensures registry.HasPath(PathTo(prefix, Join(parts[..m]))) || (prefix == "" && m == 1 && registry.HasKey(parts[0]))
    decreases |parts|
  {
    m := 1;
    assert parts[..1] == [parts[0]];
    if !Known(registry, prefix, parts[0]) {
      var n := SomePathOnTheWay(registry, node.entries[parts[0]], PathTo(prefix, parts[0]), parts[1..]);
      m := n + 1;
      assert parts[..m][1..] == parts[1..][..n];
      assert PathTo(PathTo(prefix, parts[0]), Join(parts[1..][..n])) == PathTo(prefix, Join(parts[..m]));
    }
  }

  /** While no key is empty or has a dot in it, exactly the leaves that are not read are reported. */
  lemma ReportedIffNotRead(registry: Registry, file: Yaml, parts: seq<string>)
    requires PathsWellFormed(registry) && IsLeaf(file, parts) && Plain(parts)
    ensures Reported(registry, file, "", parts) <==> !Read(registry, parts)
  {
    if Reported(registry, file, "", parts) {
      ReportedIsNotRead(registry, file, parts);
    } else {
      var m := SomePathOnTheWay(registry, file, "", parts);
      if registry.HasPath(Join(parts[..m])) {
        var i :| 0 <= i < |registry.entries| && registry.entries[i].yaml == Some(Join(parts[..m]));
        SplitOfJoin(parts[..m]);
        assert ReadBy(registry.entries[i], parts);
      } else {
        var i :| 0 <= i < |registry.entries| && registry.entries[i].key == parts[0];
        assert ReadBy(registry.entries[i], parts);
      }
    }
  }

  // ----- exactly which leaves are reported -----

  /** How the walk spells the place that these keys lead to. An empty key in front leaves no trace. */
  function Spelled(prefix: string, parts: seq<string>): string {
    if parts == [] then prefix else PathTo(Spelled(prefix, parts[..|parts| - 1]), parts[|parts| - 1])
  }

  lemma {:induction false} SpelledFromBelow(prefix: string, parts: seq<string>)
    requires |parts| >= 1
    ensures Spelled(prefix, parts) == Spelled(PathTo(prefix, parts[0]), parts[1..])
  {
    if |parts| == 1 {
      assert parts[..0] == [] && parts[1..] == [];
    } else {
      SpelledFromBelow(prefix, parts[..|parts| - 1]);
      assert parts[..|parts| - 1][1..] == parts[1..][..|parts| - 2];
    }
  }

  /** The walk stops at the key numbered `m`, because the path spelt there is known. */
  predicate StopsAt(registry: Registry, prefix: string, parts: seq<string>, m: nat)
    requires m < |parts|
  {
    Known(registry, Spelled(prefix, parts[..m]), parts[m])
  }

  lemma StopsBelow(registry: Registry, prefix: string, parts: seq<string>, m: nat)
    requires 1 <= m < |parts|
    ensures StopsAt(registry, prefix, parts, m) <==> StopsAt(registry, PathTo(prefix, parts[0]), parts[1..], m - 1)
  {
    SpelledFromBelow(prefix, parts[..m]);
    assert parts[..m][1..] == parts[1..][..m - 1];
  }

  /** Whatever its keys look like, a leaf is reported exactly when no known path is spelt on the way. */
  lemma {:induction false} ReportedUnlessStopped(registry: Registry, node: Yaml, prefix: string, parts: seq<string>)
    requires IsLeaf(node, parts)
    ensures Reported(registry, node, prefix, parts)
      <==> forall m :: 0 <= m < |parts| ==> !StopsAt(registry, prefix, parts, m)
    decreases |parts|
  {
    var path, rest := PathTo(prefix, parts[0]), parts[1..];
    assert StopsAt(registry, prefix, parts, 0) <==> Known(registry, prefix, parts[0]) by {
      assert parts[..0] == [];
    }
    if |parts| > 1 {
      ReportedUnlessStopped(registry, node.entries[parts[0]], path, rest);
      forall m | 1 <= m < |parts|
        ensures StopsAt(registry, prefix, parts, m) <==> StopsAt(registry, path, rest, m - 1)
      {
        StopsBelow(registry, prefix, parts, m);
      }
      if forall m :: 0 <= m < |parts| ==> !StopsAt(registry, prefix, parts, m) {
        forall m | 0 <= m < |rest| ensures !StopsAt(registry, path, rest, m) {
          assert !StopsAt(registry, prefix, parts, m + 1);
        }
      }
    }
  }

  /** Nothing reads the leaf, and nothing says so. */
  ghost predicate Missed(registry: Registry, file: Yaml, parts: seq<string>) {
    IsLeaf(file, parts) && !Read(registry, parts) && !Reported(registry, file, "", parts)
  }

  /** A leaf that nothing reads is missed exactly when some of its keys together spell a registered path, or
      a registered key after nothing but empty ones. */
  lemma MissedExactly(registry: Registry, file: Yaml, parts: seq<string>)
    requires IsLeaf(file, parts) && !Read(registry, parts)
    ensures Missed(registry, file, parts)
      <==> exists m :: 0 <= m < |parts| && StopsAt(registry, "", parts, m)
  {
    ReportedUnlessStopped(registry, file, "", parts);
  }

  // ----- removing what is reported -----

  function Remove(node: Yaml, parts: seq<string>): Yaml
    decreases |parts|
  {
    if !node.Mapping? || parts == [] || parts[0] !in node.entries then node
    else if |parts| == 1 then Mapping(node.entries - {parts[0]})
    else Mapping(node.entries[parts[0] := Remove(node.entries[parts[0]], parts[1..])])
  }

  lemma {:induction false} ElsewhereUnchanged(node: Yaml, parts: seq<string>, path: seq<string>)
    requires IsLeaf(node, parts) && !(path <= parts)
    ensures Nested(Remove(node, parts), path) == Nested(node, path)
    decreases |parts|
  {
    if path[0] == parts[0] && |parts| > 1 {
      assert path[1..] <= parts[1..] ==> path <= parts;
      ElsewhereUnchanged(node.entries[parts[0]], parts[1..], path[1..]);
    }
  }

  lemma {:induction false} ReportedIsLeaf(registry: Registry, node: Yaml, prefix: string, parts: seq<string>)
    requires Reported(registry, node, prefix, parts)
    ensures IsLeaf(node, parts)
    decreases |parts|
  {
    if |parts| > 1 {
      ReportedIsLeaf(registry, node.entries[parts[0]], PathTo(prefix, parts[0]), parts[1..]);
    }
  }

  /** Taking a reported leaf out of the file changes no key's value or source. */
  lemma RemovalChangesNothing(registry: Registry, file: Yaml, parts: seq<string>, entry: Entry,
                              env: map<string, string>, appDefaults: map<string, string>, serialize: Yaml -> string)
    requires PathsWellFormed(registry) && Reported(registry, file, "", parts) && entry in registry.entries
    ensures Remove(file, parts).Mapping?
    ensures ConfigLoader.Effective(env, Remove(file, parts), entry, appDefaults, serialize)
      == ConfigLoader.Effective(env, file, entry, appDefaults, serialize)
  {
    ReportedIsLeaf(registry, file, "", parts);
    ReportedIsNotRead(registry, file, parts);
    var i :| 0 <= i < |registry.entries| && registry.entries[i] == entry;
    assert !ReadBy(registry.entries[i], parts);
    if entry.yaml.Some? {
      ElsewhereUnchanged(file, parts, SplitPath(entry.yaml.value));
    }
  }

  /** A dot in a key gets past the check: `database.url` at the top of the file is not the `url` of
      `database`. */
  lemma DottedKeyIsMissed(first: string, second: string, key: string, leaf: Yaml)
    requires DotFree(first) && DotFree(second) && key != first + "." + second && !leaf.Mapping?
    ensures var path := first + "." + second;
      Missed(Registry([Entry(key, Some(path), None)]), Mapping(map[path := leaf]), [path])
  {
    var path := first + "." + second;
    var entry := Entry(key, Some(path), None);
    SplitOfPart(first, second);
    SplitOfDotFree(second);
    assert Registry([entry]).entries[0].yaml == Some(path);
    assert !ReadBy(entry, [path]);
  }

  /** So does an empty key: what is below it is taken for the top of the file. */
  lemma EmptyKeyIsMissed(url: Yaml)
    requires !url.Mapping?
    ensures var registry := Registry([Entry("DATABASE_URL", None, None)]);
      Missed(registry, Mapping(map["" := Mapping(map["DATABASE_URL" := url])]), ["", "DATABASE_URL"])
  {
    var registry := Registry([Entry("DATABASE_URL", None, None)]);
    var parts := ["", "DATABASE_URL"];
    assert registry.entries[0].key == "DATABASE_URL";
    assert parts[1..] == ["DATABASE_URL"];
    var below := Mapping(map["DATABASE_URL" := url]);
    assert IsLeaf(below, parts[1..]) && !Reported(registry, below, "", parts[1..]);
  }
}
