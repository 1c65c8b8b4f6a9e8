/** The edit distance behind the loader's "did you mean" hint (config.loader.ts).

    `Lev` is the textbook recursion on the lengths of two prefixes. The row-by-row loop of
    the source computes it; it is a metric, and the least number of single-character edits. */
module EditDistance {
  import opened Wrappers

  function Min3(x: int, y: int, z: int): (m: int)
    ensures m <= x && m <= y && m <= z && (m == x || m == y || m == z)
  {
    if x <= y && x <= z then x else if y <= z then y else z
  }

  /** The price of putting y where x stands. */
  function Differ(x: char, y: char): int {
    if x == y then 0 else 1
  }

  /** The distance of a[..i] and b[..j]. */
  function Lev(a: string, i: nat, b: string, j: nat): nat
    requires i <= |a| && j <= |b|
  {
    if i == 0 then j
    else if j == 0 then i
    else Min3(Lev(a, i - 1, b, j) + 1, Lev(a, i, b, j - 1) + 1, Lev(a, i - 1, b, j - 1) + Differ(a[i - 1], b[j - 1]))
  }

  function Distance(a: string, b: string): nat {
    Lev(a, |a|, b, |b|)
  }

  // ----- the loops of the source -----

  method ComputeDistance(a: string, b: string) returns (d: nat)
    ensures d == Distance(a, b)
  {
    var row := seq(|b| + 1, j => j);
    for i := 1 to |a| + 1
      invariant |row| == |b| + 1 && forall j {:trigger row[j]} :: 0 <= j <= |b| ==> row[j] == Lev(a, i - 1, b, j)
    {
      var next := [i];
      for j := 1 to |b| + 1
        invariant |next| == j && forall k {:trigger next[k]} :: 0 <= k < j ==> next[k] == Lev(a, i, b, k)
      {
        next := next + [Min3(row[j] + 1, next[j - 1] + 1, row[j - 1] + if a[i - 1] == b[j - 1] then 0 else 1)];
      }
      row := next;
    }
    return row[|b|];
  }

  /** The first distance that is no longer "close enough to be the intended one": within two edits, or as many
      as a quarter of the word. */
  function Threshold(word: string): (t: nat)
    ensures t > 2 && t > |word| / 4 && (t == 3 || t == |word| / 4 + 1)
  {
    (if 2 <= |word| / 4 then |word| / 4 else 2) + 1
  }

  /** `lower` stands for the engine's case folding, `String.prototype.toLowerCase`. */
  ghost function Far(word: string, lower: string -> string, candidate: string): nat {
    Distance(lower(word), lower(candidate))
  }

  /** candidates[i] is the first of the candidates at the least distance from the word. */
  ghost predicate ClosestAt(word: string, candidates: seq<string>, lower: string -> string, i: int) {
    && 0 <= i < |candidates|
    && (forall j :: 0 <= j < i ==> Far(word, lower, candidates[j]) > Far(word, lower, candidates[i]))
    && (forall j :: i <= j < |candidates| ==> Far(word, lower, candidates[j]) >= Far(word, lower, candidates[i]))
  }

  method Nearest(word: string, candidates: seq<string>, lower: string -> string) returns (best: Option<string>)
    ensures best.None? <==> forall c :: c in candidates ==> Far(word, lower, c) >= Threshold(word)
    ensures best.Some? ==> exists i :: ClosestAt(word, candidates, lower, i) && candidates[i] == best.value
    ensures best.Some? ==> Far(word, lower, best.value) < Threshold(word)
  {
    best := None;
    var bestDistance := Threshold(word);
    ghost var at := 0;
    for k := 0 to |candidates|
      invariant best.None? ==> bestDistance == Threshold(word)
      invariant best.None? ==> forall j :: 0 <= j < k ==> Far(word, lower, candidates[j]) >= bestDistance
      invariant best.Some? ==> ClosestAt(word, candidates[..k], lower, at) && candidates[at] == best.value
      invariant best.Some? ==> Far(word, lower, candidates[at]) == bestDistance < Threshold(word)
    {
      var d := ComputeDistance(lower(word), lower(candidates[k]));
      assert d == Far(word, lower, candidates[k]);
      if d < bestDistance {
        best, bestDistance := Some(candidates[k]), d;
        at := k;
      }
    }
    assert candidates[..|candidates|] == candidates;
  }

  // ----- a metric -----

  ghost predicate SameBackwards(a: string, i: nat, b: string, j: nat)
    requires i <= |a| && j <= |b|
  {
    Lev(a, i, b, j) == Lev(b, j, a, i)
  }

  lemma {:induction false} LevSymmetric(a: string, i: nat, b: string, j: nat)
    requires i <= |a| && j <= |b|
    ensures SameBackwards(a, i, b, j)
  {
    if i > 0 && j > 0 {
      LevSymmetric(a, i - 1, b, j);
      LevSymmetric(a, i, b, j - 1);
      LevSymmetric(a, i - 1, b, j - 1);
    }
  }

  lemma {:induction false} LevZero(a: string, i: nat, b: string, j: nat)
    requires i <= |a| && j <= |b|
    ensures Lev(a, i, b, j) == 0 <==> a[..i] == b[..j]
  {
    if i > 0 && j > 0 {
      LevZero(a, i - 1, b, j - 1);
      assert a[..i] == a[..i - 1] + [a[i - 1]] && b[..j] == b[..j - 1] + [b[j - 1]];
    }
  }

  /** The lengths bound the distance from both sides. */
  lemma {:induction false} LevLengths(a: string, i: nat, b: string, j: nat)
    requires i <= |a| && j <= |b|
    ensures i - j <= Lev(a, i, b, j) && j - i <= Lev(a, i, b, j) <= i + j
  {
    if i > 0 && j > 0 {
      LevLengths(a, i - 1, b, j);
      LevLengths(a, i, b, j - 1);
      LevLengths(a, i - 1, b, j - 1);
    }
  }

  ghost predicate NoDetour(a: string, i: nat, b: string, j: nat, c: string, k: nat)
    requires i <= |a| && j <= |b| && k <= |c|
  {
    Lev(a, i, c, k) <= Lev(a, i, b, j) + Lev(b, j, c, k)
  }

  lemma {:induction false} LevTriangle(a: string, i: nat, b: string, j: nat, c: string, k: nat)
    requires i <= |a| && j <= |b| && k <= |c|
    ensures NoDetour(a, i, b, j, c, k)
    decreases i + j + k
  {
    if i == 0 || j == 0 || k == 0 {
      LevLengths(a, i, b, j);
      LevLengths(b, j, c, k);
      LevLengths(a, i, c, k);
    } else if Lev(a, i, b, j) == Lev(a, i - 1, b, j) + 1 {
      LevTriangle(a, i - 1, b, j, c, k);
    } else if Lev(b, j, c, k) == Lev(b, j, c, k - 1) + 1 {
      LevTriangle(a, i, b, j, c, k - 1);
    } else if Lev(a, i, b, j) == Lev(a, i, b, j - 1) + 1 {
      if Lev(b, j, c, k) == Lev(b, j - 1, c, k) + 1 {
        LevTriangle(a, i, b, j - 1, c, k);
      } else {
        LevTriangle(a, i, b, j - 1, c, k - 1);
      }
    } else if Lev(b, j, c, k) == Lev(b, j - 1, c, k) + 1 {
      LevTriangle(a, i - 1, b, j - 1, c, k);
    } else {
      LevTriangle(a, i - 1, b, j - 1, c, k - 1);
    }
  }

  /** Symmetric, zero exactly on equal strings, and no detour is shorter. */
  lemma DistanceIsMetric(a: string, b: string, c: string)
    ensures Distance(a, b) == Distance(b, a)
    ensures Distance(a, b) == 0 <==> a == b
    ensures Distance(a, c) <= Distance(a, b) + Distance(b, c)
  {
    LevSymmetric(a, |a|, b, |b|);
    LevZero(a, |a|, b, |b|);
    assert a[..|a|] == a && b[..|b|] == b;
    LevTriangle(a, |a|, b, |b|, c, |c|);
  }

  // ----- the least number of single-character edits -----

  ghost predicate Deletes(a: string, b: string, k: nat) {
    k < |a| && b == a[..k] + a[k + 1..]
  }

  ghost predicate Substitutes(a: string, b: string, k: nat) {
    k < |a| == |b| && b == a[k := b[k]]
  }

  /** b is a with one character deleted, inserted or replaced. */
  ghost predicate OneEdit(a: string, b: string) {
    exists k: nat :: Deletes(a, b, k) || Deletes(b, a, k) || Substitutes(a, b, k)
  }

  /** A way from a to b in |path| - 1 edits. */
  ghost predicate EditPath(path: seq<string>, a: string, b: string) {
    path != [] && path[0] == a && path[|path| - 1] == b
    && forall i :: 0 <= i < |path| - 1 ==> OneEdit(path[i], path[i + 1])
  }

  /** Equal characters behind two prefixes add nothing to their distance. */
  lemma {:induction false} EqualTail(a: string, i: nat, b: string, j: nat, n: nat)
    requires i + n <= |a| && j + n <= |b|
    requires a[i..i + n] == b[j..j + n]
    ensures Lev(a, i + n, b, j + n) <= Lev(a, i, b, j)
  {
    if n > 0 {
      assert a[i..i + n][..n - 1] == a[i..i + n - 1] && b[j..j + n][..n - 1] == b[j..j + n - 1];
      EqualTail(a, i, b, j, n - 1);
      assert a[i..i + n][n - 1] == b[j..j + n][n - 1];
    }
  }

  lemma DeleteCostsOne(a: string, b: string, k: nat)
    requires Deletes(a, b, k)
    ensures Distance(a, b) <= 1
  {
    EqualTail(a, k + 1, b, k, |b| - k);
    assert a[..k] == b[..k];
    LevZero(a, k, b, k);
  }

  lemma SubstituteCostsOne(a: string, b: string, k: nat)
    requires Substitutes(a, b, k)
    ensures Distance(a, b) <= 1
  {
    EqualTail(a, k + 1, b, k + 1, |b| - k - 1);
    assert a[..k] == b[..k];
    LevZero(a, k, b, k);
  }

  lemma OneEditCostsOne(a: string, b: string)
    requires OneEdit(a, b)
    ensures Distance(a, b) <= 1
  {
    var k: nat :| Deletes(a, b, k) || Deletes(b, a, k) || Substitutes(a, b, k);
    if Deletes(a, b, k) {
      DeleteCostsOne(a, b, k);
    } else if Deletes(b, a, k) {
      DeleteCostsOne(b, a, k);
      LevSymmetric(a, |a|, b, |b|);
    } else {
      SubstituteCostsOne(a, b, k);
    }
  }

  lemma PathTail(path: seq<string>, a: string, b: string)
    requires EditPath(path, a, b) && |path| > 1
    ensures OneEdit(a, path[1]) && EditPath(path[1..], path[1], b)
  {
    assert OneEdit(path[0], path[1]);
    forall i {:trigger path[1..][i]} | 0 <= i < |path| - 2 ensures OneEdit(path[1..][i], path[1..][i + 1]) {
      assert OneEdit(path[i + 1], path[i + 2]);
    }
  }

  /** No way of editing a into b is shorter than the distance. */
  lemma {:induction false} NoShorterPath(path: seq<string>, a: string, b: string)
    requires EditPath(path, a, b)
    ensures Distance(a, b) <= |path| - 1
    decreases |path|
  {
    if |path| == 1 {
      DistanceIsMetric(a, b, b);
    } else {
      var rest := path[1..];
      PathTail(path, a, b);
      OneEditCostsOne(a, path[1]);
      NoShorterPath(rest, path[1], b);
      DistanceIsMetric(a, path[1], b);
    }
  }

  lemma DeletesUnderSuffix(a: string, b: string, x: char, k: nat)
    requires Deletes(a, b, k)
    ensures Deletes(a + [x], b + [x], k)
  {
    assert (a + [x])[..k] == a[..k] && (a + [x])[k + 1..] == a[k + 1..] + [x];
  }

  lemma OneEditUnderSuffix(a: string, b: string, x: char)
    requires OneEdit(a, b)
    ensures OneEdit(a + [x], b + [x])
  {
    var k: nat :| Deletes(a, b, k) || Deletes(b, a, k) || Substitutes(a, b, k);
    if Deletes(a, b, k) {
      DeletesUnderSuffix(a, b, x, k);
    } else if Deletes(b, a, k) {
      DeletesUnderSuffix(b, a, x, k);
    } else {
      assert Substitutes(a + [x], b + [x], k);
    }
  }

  lemma PathUnderSuffix(path: seq<string>, a: string, b: string, x: char) returns (longer: seq<string>)
    requires EditPath(path, a, b)
    ensures |longer| == |path| && EditPath(longer, a + [x], b + [x])
  {
    longer := seq(|path|, i requires 0 <= i < |path| => path[i] + [x]);
    forall i | 0 <= i < |longer| - 1 ensures OneEdit(longer[i], longer[i + 1]) {
      OneEditUnderSuffix(path[i], path[i + 1], x);
    }
  }

  lemma PathThenEdit(path: seq<string>, a: string, b: string, c: string)
    requires EditPath(path, a, b) && OneEdit(b, c)
    ensures EditPath(path + [c], a, c)
  {
  }

  lemma EditThenPath(a: string, b: string, path: seq<string>, c: string)
    requires OneEdit(a, b) && EditPath(path, b, c)
    ensures EditPath([a] + path, a, c)
  {
    forall i | 0 <= i < |path| ensures OneEdit(([a] + path)[i], ([a] + path)[i + 1]) {
      if i > 0 {
        assert OneEdit(path[i - 1], path[i]);
      }
    }
  }

  /** The recursion's choices, followed backwards, are such a shortest way. */
  lemma {:induction false} ShortestPath(a: string, i: nat, b: string, j: nat) returns (path: seq<string>)
    requires i <= |a| && j <= |b|
    ensures EditPath(path, a[..i], b[..j]) && |path| - 1 == Lev(a, i, b, j)
    decreases i + j, 0
  {
    if i == 0 && j == 0 {
      path := [""];
    } else if j == 0 || (i > 0 && Lev(a, i, b, j) == Lev(a, i - 1, b, j) + 1) {
      var rest := ShortestPath(a, i - 1, b, j);
      assert Deletes(a[..i], a[..i - 1], i - 1);
      EditThenPath(a[..i], a[..i - 1], rest, b[..j]);
      path := [a[..i]] + rest;
    } else if i == 0 || Lev(a, i, b, j) == Lev(a, i, b, j - 1) + 1 {
      var rest := ShortestPath(a, i, b, j - 1);
      assert Deletes(b[..j], b[..j - 1], j - 1);
      PathThenEdit(rest, a[..i], b[..j - 1], b[..j]);
      path := rest + [b[..j]];
    } else {
      path := DiagonalPath(a, i, b, j);
    }
  }

  lemma DiagonalPath(a: string, i: nat, b: string, j: nat) returns (path: seq<string>)
    requires 0 < i <= |a| && 0 < j <= |b|
    ensures EditPath(path, a[..i], b[..j]) && |path| - 1 == Lev(a, i - 1, b, j - 1) + Differ(a[i - 1], b[j - 1])
    decreases i + j - 1, 1
  {
    var x := a[i - 1];
    var short := ShortestPath(a, i - 1, b, j - 1);
    path := PathUnderSuffix(short, a[..i - 1], b[..j - 1], x);
    assert a[..i] == a[..i - 1] + [x] && b[..j] == b[..j - 1] + [b[j - 1]];
    if x != b[j - 1] {
      var c := b[..j - 1] + [x];
      assert Substitutes(c, b[..j], j - 1);
      PathThenEdit(path, a[..i], c, b[..j]);
      path := path + [b[..j]];
    }
  }

  /** Distance(a, b) is exactly the least number of single-character edits that turn a into b. */
  lemma DistanceIsLeastEdits(a: string, b: string)
    ensures exists path :: EditPath(path, a, b) && |path| - 1 == Distance(a, b)
    ensures forall path :: EditPath(path, a, b) ==> Distance(a, b) <= |path| - 1
  {
    var shortest := ShortestPath(a, |a|, b, |b|);
    assert a[..|a|] == a && b[..|b|] == b;
    forall path | EditPath(path, a, b) ensures Distance(a, b) <= |path| - 1 {
      NoShorterPath(path, a, b);
    }
  }
}
