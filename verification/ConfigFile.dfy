/** The parsed YAML file, the registry of keys, and paths into the file (config.loader.ts). */
module ConfigFile {
  import opened Wrappers

  /** `List` keeps a sequence by its text: the loader never looks inside one. */
  datatype Yaml = Null | Scalar(text: string) | List(text: string) | Mapping(entries: map<string, Yaml>)

  datatype Entry = Entry(key: string, yaml: Option<string>, byDefault: Option<string>)

  /** split(".") */
  function SplitPath(path: string): (parts: seq<string>)
    ensures |parts| >= 1
  {
    if path == "" then [""]
    else
      var rest := SplitPath(path[1..]);
      if path[0] == '.' then [""] + rest else [[path[0]] + rest[0]] + rest[1..]
  }

  /** join(".") */
  function Join(parts: seq<string>): string
    requires |parts| >= 1
  {
    if |parts| == 1 then parts[0] else parts[0] + "." + Join(parts[1..])
  }

  predicate DotFree(part: string) {
    forall i :: 0 <= i < |part| ==> part[i] != '.'
  }

  lemma {:induction false} JoinOfSplit(path: string)
    ensures Join(SplitPath(path)) == path
  {
    if path != "" {
      JoinOfSplit(path[1..]);
      var rest, parts := SplitPath(path[1..]), SplitPath(path);
      if path[0] == '.' {
        assert parts[1..] == rest;
      } else {
        assert parts[1..] == rest[1..];
      }
    }
  }

  lemma {:induction false} SplitOfPart(part: string, rest: string)
    requires DotFree(part)
    ensures SplitPath(part + "." + rest) == [part] + SplitPath(rest)
  {
    var path := part + "." + rest;
    if part == "" {
      assert path[1..] == rest;
    } else {
      SplitOfPart(part[1..], rest);
      assert path[1..] == part[1..] + "." + rest;
      assert [part[0]] + part[1..] == part;
    }
  }

  lemma {:induction false} SplitOfDotFree(part: string)
    requires DotFree(part)
    ensures SplitPath(part) == [part]
  {
    if part != "" {
      SplitOfDotFree(part[1..]);
      assert [part[0]] + part[1..] == part;
    }
  }

  lemma {:induction false} SplitOfJoin(parts: seq<string>)
    requires |parts| >= 1 && forall i :: 0 <= i < |parts| ==> DotFree(parts[i])
    ensures SplitPath(Join(parts)) == parts
  {
    if |parts| == 1 {
      SplitOfDotFree(parts[0]);
    } else {
      SplitOfPart(parts[0], Join(parts[1..]));
      SplitOfJoin(parts[1..]);
      assert [parts[0]] + parts[1..] == parts;
    }
  }

  /** What the file has at a path; None is `undefined`. */
  function Nested(value: Yaml, parts: seq<string>): Option<Yaml>
    decreases |parts|
  {
    if parts == [] then Some(value)
    else if value.Mapping? && parts[0] in value.entries then Nested(value.entries[parts[0]], parts[1..])
    else None
  }

  method GetNestedValue(file: Yaml, path: string) returns (value: Option<Yaml>)
    ensures value == Nested(file, SplitPath(path))
  {
    var parts := SplitPath(path);
    value := Some(file);
    for i := 0 to |parts|
      invariant value.Some? && Nested(file, parts) == Nested(value.value, parts[i..])
    {
      if !value.value.Mapping? || parts[i] !in value.value.entries {
        return None;
      }
      assert parts[i..][1..] == parts[i + 1..];
      value := Some(value.value.entries[parts[i]]);
    }
    assert parts[|parts|..] == [];
  }
}
