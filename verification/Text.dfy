/** Characters and strings as the source's regular expressions and string methods see them. */
module Text {
  predicate IsDigit(c: char) {
    '0' <= c <= '9'
  }

  predicate AllDigits(s: string) {
    s != "" && forall i :: 0 <= i < |s| ==> IsDigit(s[i])
  }

  /** How many digits a string starts with. */
  function DigitRun(s: string): (n: nat)
    ensures n <= |s|
  {
    if s == "" || !IsDigit(s[0]) then 0 else 1 + DigitRun(s[1..])
  }

  ghost predicate RunsTo(s: string, n: nat) {
    n <= |s| && (forall i :: 0 <= i < n ==> IsDigit(s[i])) && (n < |s| ==> !IsDigit(s[n]))
  }

  lemma {:induction false} DigitRunIs(s: string, n: nat)
    requires n <= |s|
    ensures DigitRun(s) == n <==> RunsTo(s, n)
  {
    if s != "" && IsDigit(s[0]) && n > 0 {
      DigitRunIs(s[1..], n - 1);
    }
  }

  /** White space and line ends, as `\s` and trim() have them. */
  predicate IsSpace(c: char) {
    || '\t' <= c <= '\r' || c == ' ' || c == '\U{A0}' || c == '\U{1680}' || c == '\U{2028}' || c == '\U{2029}'
    || c == '\U{202F}' || c == '\U{205F}' || c == '\U{3000}' || c == '\U{FEFF}'
    || '\U{2000}' <= c <= '\U{200A}'
  }

  function SkipSpace(s: string): string {
    if s != "" && IsSpace(s[0]) then SkipSpace(s[1..]) else s
  }

  predicate AllSpace(s: string) {
    forall i :: 0 <= i < |s| ==> IsSpace(s[i])
  }

  lemma {:induction false} SkipSpaceIs(space: string, s: string)
    requires AllSpace(space) && (s != "" ==> !IsSpace(s[0]))
    ensures SkipSpace(space + s) == s
  {
    if space != "" {
      SkipSpaceIs(space[1..], s);
      assert (space + s)[1..] == space[1..] + s;
    } else {
      assert space + s == s;
    }
  }

  /** Skipping takes white space away and nothing else, and as much as there is. */
  lemma {:induction false} SkipSpaceTakes(s: string) returns (space: string)
    ensures AllSpace(space) && s == space + SkipSpace(s)
    ensures SkipSpace(s) != "" ==> !IsSpace(SkipSpace(s)[0])
  {
    if s != "" && IsSpace(s[0]) {
      var more := SkipSpaceTakes(s[1..]);
      space := [s[0]] + more;
    } else {
      space := "";
    }
  }

  function TrimEnd(s: string): string {
    if s != "" && IsSpace(s[|s| - 1]) then TrimEnd(s[..|s| - 1]) else s
  }

  function Trim(s: string): string {
    TrimEnd(SkipSpace(s))
  }

  lemma {:induction false} TrimEndIs(s: string, space: string)
    requires AllSpace(space) && s != "" && !IsSpace(s[|s| - 1])
    ensures TrimEnd(s + space) == s
  {
    if space != "" {
      var n := |space| - 1;
      var all := s + space;
      assert all[|all| - 1] == space[n] && all[..|all| - 1] == s + space[..n];
      TrimEndIs(s, space[..n]);
    } else {
      assert s + space == s;
    }
  }

  /** What stands between white space is what is left. */
  lemma TrimIs(before: string, s: string, after: string)
    requires AllSpace(before) && AllSpace(after) && s != "" && !IsSpace(s[0]) && !IsSpace(s[|s| - 1])
    ensures Trim(before + s + after) == s
  {
    assert before + s + after == before + (s + after);
    assert (s + after)[0] == s[0];
    SkipSpaceIs(before, s + after);
    TrimEndIs(s, after);
  }
}
