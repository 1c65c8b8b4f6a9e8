/** Routing of outbound URLs (resilient-client.pool.ts): greedy matching of a selector with
    `{placeholder}` wildcards, and the choice of the first target that matches. */
module Selector {
  import opened Wrappers

  /** gaps[0] + parts[0] + gaps[1] + parts[1] + ... + gaps[n]. */
  function Weave(gaps: seq<string>, parts: seq<string>): string
    requires |gaps| == |parts| + 1
  {
    if parts == [] then gaps[0] else gaps[0] + parts[0] + Weave(gaps[1..], parts[1..])
  }

  ghost predicate OccursAt(s: string, part: string, at: nat) {
    at + |part| <= |s| && s[at..at + |part|] == part
  }

  /** String.prototype.indexOf: the first occurrence at or after `from`. */
  function IndexOf(s: string, part: string, from: nat): (at: Option<nat>)
    requires from <= |s|
    ensures at.Some? ==> from <= at.value && OccursAt(s, part, at.value)
    ensures at.Some? ==> forall k :: from <= k < at.value ==> !OccursAt(s, part, k)
    ensures at.None? ==> forall k :: from <= k ==> !OccursAt(s, part, k)
    decreases |s| - from
  {
    if from + |part| > |s| then None
    else if s[from..from + |part|] == part then Some(from)
    else if from == |s| then None
    else IndexOf(s, part, from + 1)
  }

  // ----- selector.split(/\{[^}]+\}/u) -----

  /** A '{', at least one character other than '}', a '}'. */
  ghost predicate IsPlaceholder(s: string) {
    |s| >= 3 && s[0] == '{' && s[|s| - 1] == '}' && forall k :: 1 <= k < |s| - 1 ==> s[k] != '}'
  }

  /** The end of the placeholder that starts at i, if one does. */
  function PlaceholderEnd(s: string, i: nat): (end: Option<nat>)
    requires i < |s|
    ensures end.Some? ==> i < end.value <= |s|
  {
    if s[i] != '{' then None
    else
      var close := IndexOf(s, "}", i + 1);
      if close.None? || close.value == i + 1 then None else Some(close.value + 1)
  }

  lemma ClosesPlaceholder(s: string, i: nat, close: nat)
    requires i < close < |s| && s[i] == '{' && s[close] == '}'
    requires forall k :: i < k < close ==> !OccursAt(s, "}", k)
    ensures close > i + 1 ==> IsPlaceholder(s[i..close + 1])
  {
    var found := s[i..close + 1];
    forall k | 1 <= k < |found| - 1 ensures found[k] != '}' {
      assert found[k] == s[i + k];
      assert s[i + k..i + k + 1] == [s[i + k]];
      assert !OccursAt(s, "}", i + k);
    }
    assert found[0] == s[i] && found[|found| - 1] == s[close];
  }

  lemma PlaceholderEndIsExact(s: string, i: nat)
    requires i < |s|
    ensures PlaceholderEnd(s, i).Some? ==> IsPlaceholder(s[i..PlaceholderEnd(s, i).value])
    ensures PlaceholderEnd(s, i).None? ==> forall e :: i <= e <= |s| ==> !IsPlaceholder(s[i..e])
  {
    if s[i] == '{' {
      var close := IndexOf(s, "}", i + 1);
      forall k | i < k < |s| && s[k] == '}' ensures OccursAt(s, "}", k) {
        assert s[k..k + 1] == "}";
      }
      if close.Some? {
        assert s[close.value] == s[close.value..close.value + 1][0] == '}';
        ClosesPlaceholder(s, i, close.value);
      }
      forall e | i <= e <= |s| && IsPlaceholder(s[i..e]) ensures PlaceholderEnd(s, i).Some? {
        assert s[e - 1] == s[i..e][e - 1 - i] == '}';
        assert s[i + 1] == s[i..e][1] != '}';
        assert OccursAt(s, "}", e - 1);
      }
    }
  }

  /** The leftmost placeholder at or after `from`, as (start, end). */
  function FirstPlaceholder(s: string, from: nat): (found: Option<(nat, nat)>)
    requires from <= |s|
    ensures found.Some? ==> from <= found.value.0 < found.value.1 <= |s|
    decreases |s| - from
  {
    if from == |s| then None
    else
      var end := PlaceholderEnd(s, from);
      if end.Some? then Some((from, end.value)) else FirstPlaceholder(s, from + 1)
  }

  lemma {:induction false} FirstPlaceholderIsLeftmost(s: string, from: nat)
    requires from <= |s|
    ensures var found := FirstPlaceholder(s, from);
      var start := if found.Some? then found.value.0 else |s|;
      && (found.Some? ==> IsPlaceholder(s[start..found.value.1]))
      && forall i, e :: from <= i < start && i <= e <= |s| ==> !IsPlaceholder(s[i..e])
    decreases |s| - from
  {
    if from < |s| {
      PlaceholderEndIsExact(s, from);
      if PlaceholderEnd(s, from).None? {
        FirstPlaceholderIsLeftmost(s, from + 1);
      }
    }
  }

  function Split(selector: string): (parts: seq<string>)
    ensures parts != []
    decreases |selector|
  {
    var found := FirstPlaceholder(selector, 0);
    if found.None? then [selector]
    else [selector[..found.value.0]] + Split(selector[found.value.1..])
  }

  ghost predicate PlaceholderFree(part: string) {
    forall i, e :: 0 <= i <= e <= |part| ==> !IsPlaceholder(part[i..e])
  }

  /** Up to where the first placeholder starts there is none. */
  lemma FreeUpTo(s: string, start: nat)
    requires start <= |s|
    requires forall i, e :: 0 <= i < start && i <= e <= |s| ==> !IsPlaceholder(s[i..e])
    ensures PlaceholderFree(s[..start])
  {
    forall i, e | 0 <= i <= e <= start ensures !IsPlaceholder(s[..start][i..e]) {
      assert s[..start][i..e] == s[i..e];
      if i == start { assert |s[i..e]| == 0; }
    }
  }

  lemma WeaveOneMore(gap: string, part: string, gaps: seq<string>, parts: seq<string>)
    requires |gaps| == |parts| + 1
    ensures Weave([gap] + gaps, [part] + parts) == gap + part + Weave(gaps, parts)
  {
    assert ([gap] + gaps)[1..] == gaps && ([part] + parts)[1..] == parts;
  }

  /** These parts and placeholders in turn spell the selector, and no part holds a placeholder. */
  ghost predicate TakenApart(selector: string, parts: seq<string>, holes: seq<string>) {
    && |parts| == |holes| + 1 && selector == Weave(parts, holes)
    && (forall h :: h in holes ==> IsPlaceholder(h))
    && (forall p :: p in parts ==> PlaceholderFree(p))
  }

  lemma OneHoleMore(selector: string, start: nat, end: nat, parts: seq<string>, holes: seq<string>)
    requires start <= end <= |selector| && TakenApart(selector[end..], parts, holes)
    requires IsPlaceholder(selector[start..end]) && PlaceholderFree(selector[..start])
    ensures TakenApart(selector, [selector[..start]] + parts, [selector[start..end]] + holes)
  {
    WeaveOneMore(selector[..start], selector[start..end], parts, holes);
    assert selector == selector[..start] + selector[start..end] + selector[end..];
  }

  /** Split takes the selector apart at its placeholders, and at all of them. */
  lemma {:induction false} SplitAtPlaceholders(selector: string) returns (holes: seq<string>)
    ensures TakenApart(selector, Split(selector), holes)
    decreases |selector|
  {
    var found := FirstPlaceholder(selector, 0);
    FirstPlaceholderIsLeftmost(selector, 0);
    if found.None? {
      assert selector[..|selector|] == selector;
      FreeUpTo(selector, |selector|);
      holes := [];
    } else {
      var (start, end) := found.value;
      var rest := SplitAtPlaceholders(selector[end..]);
      FreeUpTo(selector, start);
      OneHoleMore(selector, start, end, Split(selector[end..]), rest);
      holes := [selector[start..end]] + rest;
    }
  }

  // ----- the greedy match -----

  ghost predicate Fits(url: string, parts: seq<string>) {
    exists gaps: seq<string> :: |gaps| == |parts| + 1 && url == Weave(gaps, parts)
  }

  lemma FitAfterOccurrence(url: string, parts: seq<string>, at: nat)
    requires parts != [] && OccursAt(url, parts[0], at) && Fits(url[at + |parts[0]|..], parts[1..])
    ensures Fits(url, parts)
  {
    var rest := url[at + |parts[0]|..];
    var gaps: seq<string> :| |gaps| == |parts[1..]| + 1 && rest == Weave(gaps, parts[1..]);
    var all := [url[..at]] + gaps;
    assert all[1..] == gaps;
    assert url == url[..at] + parts[0] + rest;
    assert url == Weave(all, parts);
  }

  /** What comes behind an occurrence of the part that is no later than its own. */
  lemma CutAfterGap(url: string, gap: string, p: string, tail: string, at: nat) returns (extra: string)
    requires url == gap + p + tail && at <= |gap|
    ensures url[at + |p|..] == extra + tail
  {
    extra := url[at + |p|..|gap| + |p|];
    assert url[|gap| + |p|..] == tail;
  }

  /** A fit starts with the first part somewhere. */
  lemma FitStarts(url: string, parts: seq<string>) returns (gap: string, gaps: seq<string>)
    requires parts != [] && Fits(url, parts)
    ensures |gaps| == |parts| && url == gap + parts[0] + Weave(gaps, parts[1..]) && OccursAt(url, parts[0], |gap|)
  {
    var all: seq<string> :| |all| == |parts| + 1 && url == Weave(all, parts);
    gap, gaps := all[0], all[1..];
    assert url[|gap|..|gap| + |parts[0]|] == parts[0];
  }

  lemma FitAfterFirstOccurrence(url: string, parts: seq<string>, at: nat)
    requires parts != [] && OccursAt(url, parts[0], at) && Fits(url, parts)
    requires forall k :: 0 <= k < at ==> !OccursAt(url, parts[0], k)
    ensures Fits(url[at + |parts[0]|..], parts[1..])
  {
    var gap, gaps := FitStarts(url, parts);
    var tail := Weave(gaps, parts[1..]);
    var extra := CutAfterGap(url, gap, parts[0], tail, at);
    WidenFirstGap(extra, tail, gaps, parts[1..]);
  }

  /** Taking the first occurrence of the first part never loses a match. */
  lemma FirstOccurrenceIsComplete(url: string, parts: seq<string>, at: nat)
    requires parts != [] && OccursAt(url, parts[0], at)
    requires forall k :: 0 <= k < at ==> !OccursAt(url, parts[0], k)
    ensures Fits(url, parts) <==> Fits(url[at + |parts[0]|..], parts[1..])
  {
    if Fits(url[at + |parts[0]|..], parts[1..]) {
      FitAfterOccurrence(url, parts, at);
    }
    if Fits(url, parts) {
      FitAfterFirstOccurrence(url, parts, at);
    }
  }

  lemma WidenFirstGap(extra: string, tail: string, gaps: seq<string>, parts: seq<string>)
    requires |gaps| == |parts| + 1 && tail == Weave(gaps, parts)
    ensures Fits(extra + tail, parts)
  {
    var wider := [extra + gaps[0]] + gaps[1..];
    if parts != [] {
      assert extra + tail == extra + gaps[0] + parts[0] + Weave(gaps[1..], parts[1..]);
    }
    assert extra + tail == Weave(wider, parts);
  }

  lemma NoOccurrenceNoFit(url: string, parts: seq<string>)
    requires parts != [] && forall k :: 0 <= k ==> !OccursAt(url, parts[0], k)
    ensures !Fits(url, parts)
  {
    if Fits(url, parts) {
      var gaps: seq<string> :| |gaps| == |parts| + 1 && url == Weave(gaps, parts);
      assert OccursAt(url, parts[0], |gaps[0]|);
    }
  }

  lemma NothingLeftFits(url: string)
    ensures Fits(url, [])
  {
    assert url == Weave([url], []);
  }

  method MatchesSelector(url: string, selector: string) returns (matches: bool)
    ensures matches <==> Fits(url, Split(selector))
  {
    var parts := Split(selector);
    var pos: nat := 0;
    for k := 0 to |parts|
      invariant pos <= |url|
      invariant Fits(url, parts) <==> Fits(url[pos..], parts[k..])
    {
      var part := parts[k];
      if part == "" {
        EmptyPartFits(url, parts, pos, k);
        continue;
      }
      var idx := IndexOf(url, part, pos);
      if idx.None? {
        MissingPartFits(url, parts, pos, k);
        return false;
      }
      FoundPartFits(url, parts, pos, k, idx.value);
      pos := idx.value + |part|;
    }
    NothingLeftFits(url[pos..]);
    return true;
  }

  lemma EmptyPartFits(url: string, parts: seq<string>, pos: nat, k: nat)
    requires pos <= |url| && k < |parts| && parts[k] == ""
    ensures Fits(url[pos..], parts[k..]) <==> Fits(url[pos..], parts[k + 1..])
  {
    assert parts[k..][0] == "" && parts[k..][1..] == parts[k + 1..];
    assert url[pos..][0..] == url[pos..];
    FirstOccurrenceIsComplete(url[pos..], parts[k..], 0);
  }

  lemma MissingPartFits(url: string, parts: seq<string>, pos: nat, k: nat)
    requires pos <= |url| && k < |parts| && forall at :: pos <= at ==> !OccursAt(url, parts[k], at)
    ensures !Fits(url[pos..], parts[k..])
  {
    assert parts[k..][0] == parts[k];
    OccurrencesInSuffix(url, parts[k], pos);
    NoOccurrenceNoFit(url[pos..], parts[k..]);
  }

  lemma FirstInSuffix(url: string, part: string, pos: nat, at: nat)
    requires pos <= at && OccursAt(url, part, at) && forall i :: pos <= i < at ==> !OccursAt(url, part, i)
    ensures OccursAt(url[pos..], part, at - pos) && url[pos..][at - pos + |part|..] == url[at + |part|..]
    ensures forall i :: 0 <= i < at - pos ==> !OccursAt(url[pos..], part, i)
  {
    OccurrencesInSuffix(url, part, pos);
  }

  lemma FoundPartFits(url: string, parts: seq<string>, pos: nat, k: nat, at: nat)
    requires pos <= at && k < |parts| && OccursAt(url, parts[k], at)
    requires forall i :: pos <= i < at ==> !OccursAt(url, parts[k], i)
    ensures Fits(url[pos..], parts[k..]) <==> Fits(url[at + |parts[k]|..], parts[k + 1..])
  {
    var left := parts[k..];
    assert left[0] == parts[k] && left[1..] == parts[k + 1..];
    FirstInSuffix(url, parts[k], pos, at);
    FirstOccurrenceIsComplete(url[pos..], left, at - pos);
  }

  lemma OccurrencesInSuffix(s: string, part: string, pos: nat)
    requires pos <= |s|
    ensures forall k: nat :: OccursAt(s[pos..], part, k) <==> OccursAt(s, part, pos + k)
  {
    forall k: nat ensures OccursAt(s[pos..], part, k) <==> OccursAt(s, part, pos + k) {
      if pos + k + |part| <= |s| {
        assert s[pos..][k..k + |part|] == s[pos + k..pos + k + |part|];
      }
    }
  }

  /** What a match means: somewhere in the URL stands the selector, each of its placeholders
      replaced by some text. */
  lemma MatchIsFilledSelector(url: string, selector: string)
    ensures Fits(url, Split(selector)) <==>
      exists before: string, fills: seq<string>, after: string ::
        |fills| + 1 == |Split(selector)| && url == before + Weave(Split(selector), fills) + after
  {
    var parts := Split(selector);
    if Fits(url, parts) {
      var before, fills, after := FillsOfFit(url, parts);
      assert |fills| + 1 == |parts| && url == before + Weave(parts, fills) + after;
    }
    forall before: string, fills: seq<string>, after: string
      | |fills| + 1 == |parts| && url == before + Weave(parts, fills) + after
      ensures Fits(url, parts)
    {
      WeaveInsideOut(before, fills, after, parts);
    }
  }

  lemma FillsOfFit(url: string, parts: seq<string>) returns (before: string, fills: seq<string>, after: string)
    requires parts != [] && Fits(url, parts)
    ensures |fills| + 1 == |parts| && url == before + Weave(parts, fills) + after
  {
    var gaps: seq<string> :| |gaps| == |parts| + 1 && url == Weave(gaps, parts);
    before, fills, after := gaps[0], gaps[1..|parts|], gaps[|parts|];
    assert gaps == [before] + fills + [after];
    WeaveInsideOut(before, fills, after, parts);
  }

  lemma {:induction false} WeaveInsideOut(before: string, fills: seq<string>, after: string, parts: seq<string>)
    requires |fills| + 1 == |parts|
    ensures Weave([before] + fills + [after], parts) == before + Weave(parts, fills) + after
    decreases |fills|
  {
    var gaps := [before] + fills + [after];
    if fills == [] {
      assert gaps[1..] == [after] && parts[1..] == [];
    } else {
      WeaveInsideOut(fills[0], fills[1..], after, parts[1..]);
      assert gaps[1..] == [fills[0]] + fills[1..] + [after];
    }
  }

  // ----- routing -----

  datatype Target = Target(name: string, selector: string)

  /** A client, known by its base URL and by the position of the target it was built for. */
  datatype Client = Client(baseUrl: string, target: nat)

  /** How many characters from `from` on belong to the host: anything but '/', '{', '?', '#'. */
  function HostEnd(s: string, from: nat): (end: nat)
    requires from <= |s|
    ensures from <= end <= |s|
    ensures forall k :: from <= k < end ==> s[k] !in {'/', '{', '?', '#'}
    ensures end == |s| || s[end] in {'/', '{', '?', '#'}
    decreases |s| - from
  {
    if from == |s| || s[from] in {'/', '{', '?', '#'} then from else HostEnd(s, from + 1)
  }

  function ExtractBaseUrl(selector: string): (base: Option<string>)
    ensures base.Some? ==> ("https://" < base.value || "http://" < base.value)
    ensures base.Some? ==> base.value <= selector || base.value <= "https" + selector
  {
    var normalized := Normalized(selector);
    var scheme := if "https://" <= normalized then 8 else if "http://" <= normalized then 7 else 0;
    if scheme == 0 then None
    else
      var end := HostEnd(normalized, scheme);
      if end == scheme then None else Some(normalized[..end])
  }

  /** A scheme, a host of at least one character, and what the host ends at. */
  ghost predicate SplitsAfterHost(url: string, scheme: string, host: string, rest: string) {
    && scheme in {"https://", "http://"} && host != "" && url == scheme + host + rest
    && (forall k :: 0 <= k < |host| ==> host[k] !in {'/', '{', '?', '#'})
    && (rest != "" ==> rest[0] in {'/', '{', '?', '#'})
  }

  /** A selector without the scheme's name stands for https. */
  function Normalized(selector: string): string {
    if "://" <= selector then "https" + selector else selector
  }

  ghost predicate HasBase(url: string, base: string) {
    exists scheme, host, rest :: SplitsAfterHost(url, scheme, host, rest) && base == scheme + host
  }

  /** The base URL is scheme and host; where a selector begins after the scheme's name, that is https. */
  ghost predicate IsBaseUrl(selector: string, base: string) {
    HasBase(if "://" <= selector then "https" + selector else selector, base)
  }

  lemma HostEndIs(url: string, scheme: string, host: string, rest: string)
    requires SplitsAfterHost(url, scheme, host, rest)
    ensures HostEnd(url, |scheme|) == |scheme| + |host| && url[..|scheme| + |host|] == scheme + host
  {
    var n := |scheme|;
    assert forall j :: n <= j < n + |host| ==> url[j] == host[j - n];
    assert rest != "" ==> url[n + |host|] == rest[0];
  }

  lemma BaseUrlIsFound(selector: string, scheme: string, host: string, rest: string)
    requires SplitsAfterHost(Normalized(selector), scheme, host, rest)
    ensures ExtractBaseUrl(selector) == Some(scheme + host)
  {
    var url := Normalized(selector);
    HostEndIs(url, scheme, host, rest);
    assert scheme <= url;
    assert url[4] == if scheme == "https://" then 's' else ':';
  }

  lemma InThree(url: string, m: nat, n: nat)
    requires m <= n <= |url|
    ensures url == url[..m] + url[m..n] + url[n..] && url[..n] == url[..m] + url[m..n]
  {
  }

  lemma BaseUrlIsThere(selector: string)
    requires ExtractBaseUrl(selector).Some?
    ensures IsBaseUrl(selector, ExtractBaseUrl(selector).value)
  {
    var url := Normalized(selector);
    var m := if "https://" <= url then 8 else 7;
    var n := HostEnd(url, m);
    InThree(url, m, n);
    assert url[..m] == if m == 8 then "https://" else "http://";
    assert SplitsAfterHost(url, url[..m], url[m..n], url[n..]);
  }

  lemma BaseUrlIsExact(selector: string, base: string)
    ensures ExtractBaseUrl(selector) == Some(base) <==> IsBaseUrl(selector, base)
  {
    if scheme, host, rest :| SplitsAfterHost(Normalized(selector), scheme, host, rest) && base == scheme + host {
      BaseUrlIsFound(selector, scheme, host, rest);
    }
    if ExtractBaseUrl(selector) == Some(base) { BaseUrlIsThere(selector); }
  }

  /** The last of the targets with this name: Map.set keeps the latest client. */
  ghost predicate IsLastNamed(targets: seq<Target>, name: string, j: nat) {
    j < |targets| && targets[j].name == name && forall k :: j < k < |targets| ==> targets[k].name != name
  }

  ghost predicate Matches(url: string, target: Target) {
    Fits(url, Split(target.selector))
  }

  ghost predicate FirstMatch(targets: seq<Target>, url: string, i: int) {
    0 <= i < |targets| && Matches(url, targets[i]) && forall j :: 0 <= j < i ==> !Matches(url, targets[j])
  }

  lemma FirstMatchRoutes(targets: seq<Target>, url: string, client: Client, i: int)
    requires 0 <= i < |targets| && Matches(url, targets[i])
    requires forall j :: 0 <= j < i ==> !Matches(url, targets[j])
    requires IsOwnClient(targets, targets[i].name, client)
    ensures RoutedTo(targets, url, targets[i].name, client, i)
  {
  }

  /** The i-th target is the first to match; its name is resolved to the client last stored under it. */
  ghost predicate RoutedTo(targets: seq<Target>, url: string, name: string, client: Client, i: int) {
    FirstMatch(targets, url, i) && name == targets[i].name && IsOwnClient(targets, name, client)
  }

  /** The name of the k-th target leads to the client of the last target of that name. */
  ghost predicate Served(targets: seq<Target>, clients: map<string, Client>, k: int)
    requires 0 <= k < |targets|
  {
    targets[k].name in clients && IsOwnClient(targets, targets[k].name, clients[targets[k].name])
  }

  ghost predicate IsOwnClient(targets: seq<Target>, name: string, client: Client) {
    IsLastNamed(targets, name, client.target)
    && ExtractBaseUrl(targets[client.target].selector) == Some(client.baseUrl)
  }

  lemma StoredOver(targets: seq<Target>, clients: map<string, Client>, next: Target)
    requires forall k :: 0 <= k < |targets| ==> Served(targets, clients, k)
    requires ExtractBaseUrl(next.selector).Some?
    ensures var stored := clients[next.name := Client(ExtractBaseUrl(next.selector).value, |targets|)];
      var all := targets + [next];
      forall k :: 0 <= k < |all| ==> Served(all, stored, k)
  {
    var stored := clients[next.name := Client(ExtractBaseUrl(next.selector).value, |targets|)];
    var all := targets + [next];
    forall k {:trigger Served(all, stored, k)} | 0 <= k < |all| ensures Served(all, stored, k) {
      if k < |targets| && targets[k].name != next.name {
        assert Served(targets, clients, k);
      }
    }
  }

  class ResilientPool {
    const targets: seq<Target>
    var clients: map<string, Client>

    ghost predicate Valid()
      reads this
    {
      forall k :: 0 <= k < |targets| ==> Served(targets, clients, k)
    }

    constructor (targets: seq<Target>)
      requires forall t :: t in targets ==> ExtractBaseUrl(t.selector).Some?
      ensures Valid() && this.targets == targets
    {
      this.targets := targets;
      clients := map[];
      new;
      for n := 0 to |targets|
        modifies this`clients
        invariant forall k {:trigger Served(targets[..n], clients, k)} :: 0 <= k < n ==>
          Served(targets[..n], clients, k)
      {
        assert targets[n] in targets;
        StoredOver(targets[..n], clients, targets[n]);
        assert targets[..n + 1] == targets[..n] + [targets[n]];
        clients := clients[targets[n].name := Client(ExtractBaseUrl(targets[n].selector).value, n)];
      }
      assert targets[..|targets|] == targets;
    }

    method ClientOf(k: nat) returns (client: Client)
      requires Valid() && k < |targets|
      ensures IsOwnClient(targets, targets[k].name, client)
    {
      assert Served(targets, clients, k);
      client := clients[targets[k].name];
    }

    method ResolveTarget(url: string) returns (found: Option<(string, Client)>)
      requires Valid()
      ensures found.None? ==> forall j :: 0 <= j < |targets| ==> !Matches(url, targets[j])
      ensures found.Some? ==> exists i :: RoutedTo(targets, url, found.value.0, found.value.1, i)
    {
      for k := 0 to |targets|
        invariant forall j :: 0 <= j < k ==> !Matches(url, targets[j])
      {
        var matches := MatchesSelector(url, targets[k].selector);
        if matches {
          var client := ClientOf(k);
          FirstMatchRoutes(targets, url, client, k);
          return Some((targets[k].name, client));
        }
      }
      return None;
    }
  }

  /** The client a URL is routed to is the matching target's own exactly when no later target
      reuses the name; otherwise it is the later target's. */
  lemma OwnClientIffNameNotReused(targets: seq<Target>, url: string, client: Client, i: int)
    requires 0 <= i < |targets| && RoutedTo(targets, url, targets[i].name, client, i)
    ensures client.target == i <==> forall j :: i < j < |targets| ==> targets[j].name != targets[i].name
  {
  }
}
