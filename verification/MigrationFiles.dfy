/** Reading the migration files (loadMigrations in migrate.ts), and the order they end up in. */
module MigrationFiles {
  import opened Wrappers
  import opened Text
  import opened Migrate

  predicate IsVersion(s: string) {
    |s| >= 4 && forall i :: 0 <= i < |s| ==> IsDigit(s[i])
  }

  predicate IsName(s: string) {
    |s| >= 1 && forall c :: c in s ==> 'a' <= c <= 'z' || IsDigit(c) || c == '_'
  }

  const SUFFIX := ".sql"

  /** A file name taken apart: `<version>_<name>.sql`. */
  function Parse(file: string): Option<(string, string)> {
    var n, m := DigitRun(file), |file| - |SUFFIX|;
    if 4 <= n < m && file[n] == '_' && IsName(file[n + 1..m]) && file[m..] == SUFFIX
    then Some((file[..n], file[n + 1..m]))
    else None
  }

  /** It finds the parts exactly when they are there. */
  lemma ParseIsExact(file: string, version: string, name: string)
    ensures Parse(file) == Some((version, name))
      <==> IsVersion(version) && IsName(name) && file == version + "_" + name + SUFFIX
  {
    var n := DigitRun(file);
    DigitRunIs(file, n);
    if IsVersion(version) && IsName(name) && file == version + "_" + name + SUFFIX {
      assert file[|version|] == '_';
      assert forall i :: 0 <= i < |version| ==> file[i] == version[i];
      DigitRunIs(file, |version|);
      assert file[n + 1..|file| - |SUFFIX|] == name && file[|file| - |SUFFIX|..] == SUFFIX && file[..n] == version;
    }
    if Parse(file) == Some((version, name)) {
      assert file == file[..n] + [file[n]] + file[n + 1..|file| - |SUFFIX|] + file[|file| - |SUFFIX|..];
    }
  }

  datatype LoadError = BadName(file: string) | SharedVersion(version: string)

  predicate IsSql(file: string) {
    |file| >= |SUFFIX| && file[|file| - |SUFFIX|..] == SUFFIX
  }

  predicate IsWordChar(c: char) {
    'a' <= c <= 'z' || 'A' <= c <= 'Z' || IsDigit(c) || c == '_'
  }

  /** The first line `-- migrate: no-transaction`. */
  predicate MarkedNoTransaction(sql: string) {
    "--" <= sql && var s := SkipSpace(sql[2..]);
    "migrate:" <= s && var t := SkipSpace(s[8..]);
    "no-transaction" <= t && (|t| == 14 || !IsWordChar(t[14]))
  }

  /** The expression's own form of that line: white space between its parts, and a word boundary after. */
  ghost predicate HasMark(sql: string) {
    exists a, b, rest :: MarkedBy(sql, a, b, rest)
  }

  ghost predicate MarkedBy(sql: string, a: string, b: string, rest: string) {
    && AllSpace(a) && AllSpace(b) && (rest != "" ==> !IsWordChar(rest[0]))
    && sql == "--" + (a + ("migrate:" + (b + ("no-transaction" + rest))))
  }

  lemma MarkIsFound(sql: string, a: string, b: string, rest: string)
    requires MarkedBy(sql, a, b, rest)
    ensures MarkedNoTransaction(sql)
  {
    var t := "no-transaction" + rest;
    var s := "migrate:" + (b + t);
    assert t[0] == 'n' && s[0] == 'm';
    assert sql[2..] == a + s;
    SkipSpaceIs(a, s);
    assert s[8..] == b + t;
    SkipSpaceIs(b, t);
    assert t[14..] == rest;
    assert |t| > 14 ==> t[14] == rest[0];
  }

  lemma MarkIsThere(sql: string)
    requires MarkedNoTransaction(sql)
    ensures HasMark(sql)
  {
    var s := SkipSpace(sql[2..]);
    var t := SkipSpace(s[8..]);
    var a := SkipSpaceTakes(sql[2..]);
    var b := SkipSpaceTakes(s[8..]);
    assert t == "no-transaction" + t[14..];
    assert s == "migrate:" + (b + t);
    assert sql == "--" + (a + s);
    assert MarkedBy(sql, a, b, t[14..]);
  }

  /** The mark is found exactly when it is there. */
  lemma MarkIsExact(sql: string)
    ensures MarkedNoTransaction(sql) <==> HasMark(sql)
  {
    if a, b, rest :| MarkedBy(sql, a, b, rest) { MarkIsFound(sql, a, b, rest); }
    if MarkedNoTransaction(sql) { MarkIsThere(sql); }
  }

  function MigrationOf(file: string, read: string -> string, hash: string -> string): Migration
    requires Parse(file).Some?
  {
    Migration(Parse(file).value.0, Parse(file).value.1, hash(read(file)), !MarkedNoTransaction(read(file)))
  }

  /** The migrations of these files, in their order. */
  ghost predicate Loaded(files: seq<string>, read: string -> string, hash: string -> string,
                         migrations: seq<Migration>) {
    |migrations| == |files|
    && forall i :: 0 <= i < |files| ==> Parse(files[i]).Some? && migrations[i] == MigrationOf(files[i], read, hash)
  }

  /** `files` are the directory's `.sql` files, sorted as strings. */
  method LoadMigrations(files: seq<string>, read: string -> string, hash: string -> string)
      returns (result: Result<seq<Migration>, LoadError>)
    requires forall file :: file in files ==> IsSql(file)
    ensures result.Ok? <==>
      && (forall i :: 0 <= i < |files| ==> Parse(files[i]).Some?)
      && (forall i, j :: 0 <= i < j < |files| ==> Parse(files[i]).value.0 != Parse(files[j]).value.0)
    ensures result.Ok? ==> Loaded(files, read, hash, result.value) && Distinct(result.value)
    // each with its version and name, the hash of its text, and in a transaction unless it is marked
    ensures result.Ok? ==> |result.value| == |files| && forall i :: 0 <= i < |files| ==>
      var m := result.value[i];
      && Parse(files[i]) == Some((m.version, m.name)) && m.checksum == hash(read(files[i]))
      && (m.transactional <==> !MarkedNoTransaction(read(files[i])))
    ensures result.Err? && result.error.BadName? ==> result.error.file in files && Parse(result.error.file).None?
  {
    var migrations: seq<Migration> := [];
    for i := 0 to |files|
      invariant |migrations| == i && Distinct(migrations)
      invariant forall j :: 0 <= j < i ==> Parse(files[j]).Some? && migrations[j] == MigrationOf(files[j], read, hash)
    {
      if Parse(files[i]).None? { return Err(BadName(files[i])); }
      var m := MigrationOf(files[i], read, hash);
      if exists other :: other in migrations && other.version == m.version {
        var other :| other in migrations && other.version == m.version;
        var j :| 0 <= j < i && migrations[j] == other;
        return Err(SharedVersion(m.version));
      }
      migrations := migrations + [m];
    }
    result := Ok(migrations);
  }

  // ----- string order and version order -----

  ghost predicate Agree(a: string, b: string, k: nat) {
    k <= |a| && k <= |b| && forall j :: 0 <= j < k ==> a[j] == b[j]
  }

  /** The first index at which two strings differ, from `i` on. */
  function Fork(a: string, b: string, i: nat): (k: nat)
    requires Agree(a, b, i)
    ensures i <= k && Agree(a, b, k) && (k < |a| && k < |b| ==> a[k] != b[k])
    decreases |a| - i
  {
    if i < |a| && i < |b| && a[i] == b[i] then Fork(a, b, i + 1) else i
  }

  /** How JavaScript compares strings, code unit by code unit. */
  predicate Before(a: string, b: string) {
    var k := Fork(a, b, 0);
    k < |b| && (k == |a| || a[k] < b[k])
  }

  /** The number the first `k` digits of a version stand for. */
  function Number(version: string, k: nat): nat
    requires IsVersion(version) && k <= |version|
  {
    if k == 0 then 0 else Number(version, k - 1) * 10 + (version[k - 1] - '0') as nat
  }

  lemma {:induction false} SameDigits(v: string, w: string, k: nat)
    requires IsVersion(v) && IsVersion(w) && Agree(v, w, k)
    ensures Number(v, k) == Number(w, k)
  {
    if k > 0 { SameDigits(v, w, k - 1); }
  }

  /** The first digit that differs decides. */
  lemma {:induction false} FirstDifferenceDecides(v: string, w: string, i: nat, k: nat)
    requires IsVersion(v) && IsVersion(w) && i < k <= |v| && k <= |w| && Agree(v, w, i) && v[i] < w[i]
    ensures Number(v, k) < Number(w, k)
  {
    if k == i + 1 {
      SameDigits(v, w, i);
    } else {
      FirstDifferenceDecides(v, w, i, k - 1);
      assert IsDigit(v[k - 1]) && IsDigit(w[k - 1]);
      assert (v[k - 1] - '0') as nat <= 9;
    }
  }

  lemma ForkIs(a: string, b: string, k: nat)
    requires Agree(a, b, k) && k < |a| && k < |b| && a[k] != b[k]
    ensures Fork(a, b, 0) == k
  {
    assert !Agree(a, b, k + 1);
  }

  /** The order in which two files are applied, when the first has no more digits than the second: the
      first goes first exactly when its number is below that of as many digits of the second. */
  lemma FileOrder(v: string, n: string, w: string, m: string)
    requires IsVersion(v) && IsVersion(w) && IsName(n) && IsName(m) && v != w && |v| <= |w|
    ensures Before(v + "_" + n + SUFFIX, w + "_" + m + SUFFIX) <==> Number(v, |v|) < Number(w, |v|)
  {
    var a, b := v + "_" + n + SUFFIX, w + "_" + m + SUFFIX;
    var k := Fork(v, w, 0);
    assert Agree(a, b, k);
    if k < |v| {
      ForkIs(a, b, k);
      if v[k] < w[k] {
        FirstDifferenceDecides(v, w, k, |v|);
      } else {
        FirstDifferenceDecides(w, v, k, |v|);
      }
    } else {
      assert k == |w| ==> v == w;
      assert a[k] == '_' && b[k] == w[k] && IsDigit(w[k]);
      ForkIs(a, b, k);
      SameDigits(v, w, |v|);
    }
  }

  /** Versions of one width are applied in numeric order. */
  lemma SameWidthIsNumeric(v: string, n: string, w: string, m: string)
    requires IsVersion(v) && IsVersion(w) && IsName(n) && IsName(m) && v != w && |v| == |w|
    ensures Before(v + "_" + n + SUFFIX, w + "_" + m + SUFFIX) <==> Number(v, |v|) < Number(w, |w|)
  {
    FileOrder(v, n, w, m);
  }

  ghost predicate OneWidth(migrations: seq<Migration>, width: nat) {
    forall i :: 0 <= i < |migrations| ==> |migrations[i].version| == width
  }

  /** Files whose versions have one width are loaded, and so applied, in numeric order. */
  lemma SortedFilesLoadInOrder(files: seq<string>, read: string -> string, hash: string -> string,
                               migrations: seq<Migration>, width: nat, i: nat, j: nat)
    requires Loaded(files, read, hash, migrations) && Distinct(migrations) && OneWidth(migrations, width)
    requires i < j < |files| && Before(files[i], files[j])
    ensures IsVersion(migrations[i].version) && IsVersion(migrations[j].version)
    ensures Number(migrations[i].version, width) < Number(migrations[j].version, width)
  {
    var (v, n) := Parse(files[i]).value;
    var (w, m) := Parse(files[j]).value;
    ParseIsExact(files[i], v, n);
    ParseIsExact(files[j], w, m);
    assert v == migrations[i].version && w == migrations[j].version;
    SameWidthIsNumeric(v, n, w, m);
  }

  /** Versions of different widths need not be: 10000 goes before 9999. */
  lemma WiderGoesFirst()
    ensures IsVersion("9999") && IsVersion("10000") && Number("9999", 4) < Number("10000", 5)
    ensures !Before("9999_a.sql", "10000_b.sql")
  {
    assert Number("9999", 1) == 9 && Number("9999", 2) == 99 && Number("9999", 3) == 999;
    assert Number("10000", 1) == 1 && Number("10000", 2) == 10;
    assert Number("10000", 3) == 100 && Number("10000", 4) == 1000;
    assert "9999" + "_" + "a" + SUFFIX == "9999_a.sql" && "10000" + "_" + "b" + SUFFIX == "10000_b.sql";
    FileOrder("9999", "a", "10000", "b");
  }
}
