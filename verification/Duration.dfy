/** Durations: parseDuration and formatDuration of log-level.ts, and the grammar that config.values.ts
    checks them by at boot. Numbers are exact: floating point is not modelled. */
module Duration {
  import opened Wrappers
  import opened Text

  // ----- numbers -----

  /** \d+(\.\d+)? */
  ghost predicate IsNumber(s: string) {
    AllDigits(s) || exists whole, fraction :: AllDigits(whole) && AllDigits(fraction) && s == whole + "." + fraction
  }

  /** The length of the longest number a string starts with. */
  function NumberRun(s: string): (n: nat)
    ensures n <= |s|
  {
    var d := DigitRun(s);
    if 0 < d < |s| && s[d] == '.' && DigitRun(s[d + 1..]) > 0 then d + 1 + DigitRun(s[d + 1..]) else d
  }

  function IntValue(digits: string): nat
    requires forall i :: 0 <= i < |digits| ==> IsDigit(digits[i])
  {
    if digits == "" then 0
    else
      var last := |digits| - 1;
      assert IsDigit(digits[last]);
      IntValue(digits[..last]) * 10 + (digits[last] - '0') as nat
  }

  function PowerOfTen(n: nat): (p: nat)
    ensures p > 0
  {
    if n == 0 then 1 else 10 * PowerOfTen(n - 1)
  }

  /** What a number stands for. */
  function Decimal(s: string): real {
    var d := DigitRun(s);
    DigitRunIs(s, d);
    if d < |s| then
      var e := DigitRun(s[d + 1..]);
      DigitRunIs(s[d + 1..], e);
      IntValue(s[..d]) as real + IntValue(s[d + 1..][..e]) as real / PowerOfTen(e) as real
    else IntValue(s[..d]) as real
  }

  /** Math.round: to the nearest, a half upwards. */
  function Round(x: real): (n: int)
    ensures n as real - 0.5 <= x < n as real + 0.5
  {
    (x + 0.5).Floor
  }

  lemma {:induction false} IntValueOfBoth(a: string, b: string)
    requires AllDigits(a) && forall i :: 0 <= i < |b| ==> IsDigit(b[i])
    ensures forall i :: 0 <= i < |a + b| ==> IsDigit((a + b)[i])
    ensures IntValue(a + b) == IntValue(a) * PowerOfTen(|b|) + IntValue(b)
  {
    if b == "" {
      assert a + b == a;
    } else {
      var n := |b| - 1;
      IntValueOfBoth(a, b[..n]);
      assert (a + b)[..|a| + n] == a + b[..n];
      ShiftedOne(IntValue(a), PowerOfTen(n), IntValue(b[..n]));
    }
  }

  lemma ShiftedOne(a: nat, p: nat, b: nat)
    ensures (a * p + b) * 10 == a * (10 * p) + b * 10
  {}

  lemma AllRun(digits: string)
    requires AllDigits(digits)
    ensures DigitRun(digits) == |digits| && digits[..|digits|] == digits
  {
    DigitRunIs(digits, |digits|);
  }

  lemma WholeDecimal(whole: string)
    requires AllDigits(whole)
    ensures Decimal(whole) == IntValue(whole) as real
  {
    AllRun(whole);
  }

  lemma RunToPoint(whole: string, fraction: string, s: string)
    requires AllDigits(whole) && s == whole + "." + fraction
    ensures DigitRun(s) == |whole| && s[..|whole|] == whole && s[|whole| + 1..] == fraction
  {
    DigitRunIs(s, |whole|);
  }

  /** What stands after the point counts as that many places. */
  lemma FractionDecimal(whole: string, fraction: string, s: string)
    requires AllDigits(whole) && AllDigits(fraction) && s == whole + "." + fraction
    ensures Decimal(s) == IntValue(whole) as real + IntValue(fraction) as real / PowerOfTen(|fraction|) as real
  {
    RunToPoint(whole, fraction, s);
    AllRun(fraction);
  }

  /** Each place after the point is worth a tenth of the one before. */
  lemma TenTimes(n: nat)
    ensures PowerOfTen(0) == 1 && PowerOfTen(n + 1) == 10 * PowerOfTen(n)
  {
  }

  // ----- tokens -----

  datatype Unit = MS | S | M | H | D

  function UnitText(unit: Unit): string {
    match unit
    case MS => "ms"
    case S => "s"
    case M => "m"
    case H => "h"
    case D => "d"
  }

  function Size(unit: Unit): nat {
    match unit
    case MS => 1
    case S => 1_000
    case M => 60_000
    case H => 3_600_000
    case D => 86_400_000
  }

  datatype Token = Token(number: string, unit: Unit)

  datatype Tokens = End | More(head: Token, tail: Tokens)

  ghost predicate AllTokens(tokens: Tokens) {
    tokens.More? ==> IsNumber(tokens.head.number) && AllTokens(tokens.tail)
  }

  function Spell(token: Token): string {
    token.number + UnitText(token.unit)
  }

  function TextOf(tokens: Tokens): string {
    match tokens
    case End => ""
    case More(head, tail) => Spell(head) + TextOf(tail)
  }

  function Milliseconds(token: Token): real {
    Decimal(token.number) * Size(token.unit) as real
  }

  function Total(tokens: Tokens): real {
    match tokens
    case End => 0.0
    case More(head, tail) => Milliseconds(head) + Total(tail)
  }

  /** The unit a string starts with; `ms` is tried before `m`. */
  function FirstUnit(s: string): Option<Unit> {
    if "ms" <= s then Some(MS)
    else if "s" <= s then Some(S)
    else if "m" <= s then Some(M)
    else if "h" <= s then Some(H)
    else if "d" <= s then Some(D)
    else None
  }

  /** One match of the sticky expression. */
  function FirstToken(s: string): Option<Token> {
    var n := NumberRun(s);
    if n > 0 && FirstUnit(s[n..]).Some? then Some(Token(s[..n], FirstUnit(s[n..]).value)) else None
  }

  function Length(token: Token): nat {
    |token.number| + |UnitText(token.unit)|
  }

  /** All matches, and what they leave over. */
  function Lex(s: string): (Tokens, string)
    decreases |s|
  {
    if FirstToken(s).None? then (End, s)
    else
      var token := FirstToken(s).value;
      var after := Lex(s[Length(token)..]);
      (More(token, after.0), after.1)
  }

  // ----- the grammar is the tokeniser -----

  lemma DigitRunStops(digits: string, s: string)
    requires AllDigits(digits) && (s != "" ==> !IsDigit(s[0]))
    ensures DigitRun(digits + s) == |digits|
  {
    DigitRunIs(digits + s, |digits|);
  }

  lemma FractionRunStops(whole: string, fraction: string, s: string)
    requires AllDigits(whole) && AllDigits(fraction) && (s != "" ==> !IsDigit(s[0]))
    ensures NumberRun(whole + ("." + (fraction + s))) == |whole| + 1 + |fraction|
  {
    var t := whole + ("." + (fraction + s));
    DigitRunStops(whole, "." + (fraction + s));
    DigitRunStops(fraction, s);
    assert t[|whole|] == '.';
    assert t[|whole| + 1..] == fraction + s;
  }

  lemma IntegerRunStops(number: string, s: string)
    requires AllDigits(number) && (s != "" ==> !IsDigit(s[0]) && s[0] != '.')
    ensures NumberRun(number + s) == |number|
  {
    DigitRunStops(number, s);
    assert s != "" ==> (number + s)[|number|] == s[0];
  }

  /** A number ends where its unit begins. */
  lemma NumberRunStops(number: string, s: string)
    requires IsNumber(number) && (s != "" ==> !IsDigit(s[0]) && s[0] != '.')
    ensures NumberRun(number + s) == |number|
  {
    if AllDigits(number) {
      IntegerRunStops(number, s);
    } else {
      var whole, fraction :| AllDigits(whole) && AllDigits(fraction) && number == whole + "." + fraction;
      FractionRunStops(whole, fraction, s);
      assert number + s == whole + ("." + (fraction + s));
    }
  }

  lemma NumberRunIsNumber(s: string)
    requires NumberRun(s) > 0
    ensures IsNumber(s[..NumberRun(s)])
  {
    var d, n := DigitRun(s), NumberRun(s);
    DigitRunIs(s, d);
    if n == d {
      assert AllDigits(s[..n]);
    } else {
      DigitRunIs(s[d + 1..], DigitRun(s[d + 1..]));
      var whole, fraction := s[..d], s[d + 1..][..DigitRun(s[d + 1..])];
      assert AllDigits(whole) && AllDigits(fraction);
      assert s[..n] == whole + "." + fraction;
    }
  }

  lemma NumberStartsWithDigit(number: string)
    requires IsNumber(number)
    ensures number != "" && IsDigit(number[0])
  {
    if !AllDigits(number) {
      var whole, fraction :| AllDigits(whole) && AllDigits(fraction) && number == whole + "." + fraction;
      assert number[0] == whole[0];
    }
  }

  /** Before a digit a unit is read whole. */
  lemma FirstUnitIs(unit: Unit, s: string)
    requires s != "" ==> IsDigit(s[0])
    ensures FirstUnit(UnitText(unit) + s) == Some(unit)
  {
    var t := UnitText(unit) + s;
    assert t[0] == UnitText(unit)[0];
    assert |t| > 1 ==> t[1] == if unit.MS? then 's' else s[0];
    assert "ms" <= t <==> |t| > 1 && t[0] == 'm' && t[1] == 's';
    assert "s" <= t <==> t[0] == 's';
    assert "m" <= t <==> t[0] == 'm';
    assert "h" <= t <==> t[0] == 'h';
    assert "d" <= t <==> t[0] == 'd';
  }

  lemma FirstTokenIs(token: Token, s: string)
    requires IsNumber(token.number) && (s != "" ==> IsDigit(s[0]))
    ensures FirstToken(Spell(token) + s) == Some(token)
  {
    var n, u := token.number, UnitText(token.unit) + s;
    FirstUnitIs(token.unit, s);
    assert u[0] == UnitText(token.unit)[0];
    NumberRunStops(n, u);
    NumberStartsWithDigit(n);
    assert Spell(token) + s == n + u;
    assert (n + u)[|n|..] == u && (n + u)[..|n|] == n;
  }

  ghost predicate LexesTo(s: string, tokens: Tokens, rest: string) {
    Lex(s) == (tokens, rest)
  }

  lemma LexStep(token: Token, s: string, tokens: Tokens, rest: string)
    requires FirstToken(Spell(token) + s) == Some(token) && LexesTo(s, tokens, rest)
    ensures LexesTo(Spell(token) + s, More(token, tokens), rest)
  {
    assert (Spell(token) + s)[Length(token)..] == s;
  }

  lemma TextStartsWithDigit(tokens: Tokens, text: string)
    requires AllTokens(tokens) && TextOf(tokens) == text
    ensures text != "" ==> IsDigit(text[0])
  {
    if tokens.More? {
      NumberStartsWithDigit(tokens.head.number);
    }
  }

  /** Reading back what tokens spell finds those tokens. */
  lemma {:induction false} LexOfText(tokens: Tokens, text: string)
    requires AllTokens(tokens) && text == TextOf(tokens)
    ensures LexesTo(text, tokens, "")
  {
    if tokens.More? {
      var s := TextOf(tokens.tail);
      LexOfText(tokens.tail, s);
      TextStartsWithDigit(tokens.tail, s);
      FirstTokenIs(tokens.head, s);
      LexStep(tokens.head, s, tokens.tail, "");
    }
  }

  lemma FirstUnitSpelt(s: string, unit: Unit)
    requires FirstUnit(s) == Some(unit)
    ensures |UnitText(unit)| <= |s| && s == UnitText(unit) + s[|UnitText(unit)|..]
  {}

  lemma FirstTokenSpelt(s: string)
    requires FirstToken(s).Some?
    ensures var token := FirstToken(s).value;
      IsNumber(token.number) && Length(token) <= |s| && s == Spell(token) + s[Length(token)..]
  {
    var n, token := NumberRun(s), FirstToken(s).value;
    NumberRunIsNumber(s);
    FirstUnitSpelt(s[n..], token.unit);
    assert s == s[..n] + s[n..];
    assert s[n..][|UnitText(token.unit)|..] == s[Length(token)..];
  }

  lemma LexUnfolds(s: string, token: Token, tokens: Tokens, rest: string)
    requires FirstToken(s) == Some(token) && LexesTo(s, tokens, rest)
    ensures tokens.More? && tokens.head == token
    ensures Length(token) <= |s| && LexesTo(s[Length(token)..], tokens.tail, rest)
  {}

  ghost predicate Faithful(s: string, tokens: Tokens, rest: string) {
    AllTokens(tokens) && s == TextOf(tokens) + rest
  }

  lemma FaithfulStep(s: string, token: Token, tokens: Tokens, rest: string)
    requires Faithful(s, tokens, rest) && IsNumber(token.number)
    ensures Faithful(Spell(token) + s, More(token, tokens), rest)
  {}

  /** What is found spells what was read. */
  lemma {:induction false} TextOfLex(s: string, tokens: Tokens, rest: string)
    requires LexesTo(s, tokens, rest)
    ensures Faithful(s, tokens, rest)
    decreases |s|
  {
    if FirstToken(s).Some? {
      var token := FirstToken(s).value;
      LexUnfolds(s, token, tokens, rest);
      FirstTokenSpelt(s);
      TextOfLex(s[Length(token)..], tokens.tail, rest);
      FaithfulStep(s[Length(token)..], token, tokens.tail, rest);
    }
  }

  /** The expression that boot checks a duration by. */
  ghost predicate Accepted(value: string) {
    IsNumber(value) || exists tokens: Tokens :: tokens.More? && AllTokens(tokens) && TextOf(tokens) == value
  }

  /** Boot accepts exactly the numbers and what the tokeniser reads to the end. */
  lemma BootAcceptsWhatParses(value: string)
    ensures Accepted(value) <==> IsNumber(value) || (Lex(value).0.More? && Lex(value).1 == "")
  {
    if tokens: Tokens :| tokens.More? && AllTokens(tokens) && TextOf(tokens) == value {
      LexOfText(tokens, value);
    }
    var (tokens, rest) := Lex(value);
    TextOfLex(value, tokens, rest);
  }

  lemma IsNumberByRun(s: string)
    ensures IsNumber(s) <==> s != "" && NumberRun(s) == |s|
  {
    if IsNumber(s) {
      NumberRunStops(s, "");
      assert s + "" == s;
      NumberStartsWithDigit(s);
    } else if NumberRun(s) > 0 {
      NumberRunIsNumber(s);
      assert s[..|s|] == s;
    }
  }

  // ----- parsing -----

  /** What an accepted string stands for; a bare number is seconds. */
  ghost function Meaning(value: string): real {
    if IsNumber(value) then Decimal(value) * 1_000.0 else Total(Lex(value).0)
  }

  /** The loop over the matches. */
  method SumTokens(input: string) returns (total: real, matched: bool, rest: string)
    ensures total == Total(Lex(input).0) && (matched <==> Lex(input).0.More?) && rest == Lex(input).1
  {
    rest, total, matched := input, 0.0, false;
    ghost var (tokens, end) := Lex(input);
    ghost var left := tokens;
    while FirstToken(rest).Some?
      invariant LexesTo(rest, left, end)
      invariant total + Total(left) == Total(tokens)
      invariant if matched then tokens.More? else left == tokens
      decreases |rest|
    {
      var token := FirstToken(rest).value;
      LexUnfolds(rest, token, left, end);
      left := left.tail;
      total, rest, matched := total + Milliseconds(token), rest[Length(token)..], true;
    }
  }

  /** What parsing answers: nothing for what boot would not accept, or for a total that rounds to
      nothing. */
  ghost function Parsed(raw: string): Option<int> {
    var value := Trim(raw);
    if Accepted(value) && Round(Meaning(value)) > 0 then Some(Round(Meaning(value))) else None
  }

  /** A string that boot accepted is refused here only when its total rounds to nothing. */
  method ParseDuration(raw: string) returns (result: Option<int>)
    ensures result == Parsed(raw)
  {
    var input := Trim(raw);
    IsNumberByRun(input);
    BootAcceptsWhatParses(input);
    if input != "" && NumberRun(input) == |input| {
      var ms := Round(Decimal(input) * 1_000.0);
      return if ms > 0 then Some(ms) else None;
    }
    var total, matched, rest := SumTokens(input);
    var ms := Round(total);
    result := if rest != "" || !matched || ms <= 0 then None else Some(ms);
  }

  // ----- formatting -----

  function DigitsOf(n: nat): (s: string)
    ensures AllDigits(s)
  {
    var last := ['0' + (n % 10) as char];
    if n < 10 then last else DigitsOf(n / 10) + last
  }

  lemma {:induction false} DigitsReadBack(n: nat)
    ensures IntValue(DigitsOf(n)) == n
  {
    var s := DigitsOf(n);
    if n < 10 {
      assert s[..0] == "";
    } else {
      DigitsReadBack(n / 10);
      assert s[..|s| - 1] == DigitsOf(n / 10);
    }
  }

  const UNITS: seq<Unit> := [H, M, S, MS]

  /** How often a unit fits into a time. */
  function Count(time: nat, unit: Unit): nat {
    match unit
    case MS => time
    case S => time / 1_000
    case M => time / 60_000
    case H => time / 3_600_000
    case D => time / 86_400_000
  }

  /** What it leaves over. */
  function Left(time: nat, unit: Unit): (left: nat)
    ensures left < Size(unit)
  {
    match unit
    case MS => 0
    case S => time % 1_000
    case M => time % 60_000
    case H => time % 3_600_000
    case D => time % 86_400_000
  }

  lemma CountAndLeft(time: nat, unit: Unit)
    ensures Count(time, unit) == time / Size(unit)
    ensures Left(time, unit) == time - Count(time, unit) * Size(unit)
    ensures Count(time, unit) == 0 ==> Left(time, unit) == time
  {}

  /** What the first `k` units leave of a time. */
  function Remainder(ms: nat, k: nat): nat
    requires k <= 4
  {
    if k == 0 then ms else Left(Remainder(ms, k - 1), UNITS[k - 1])
  }

  /** What is printed for what is left of a time, from the unit numbered `k` on. */
  function PartsFrom(time: nat, k: nat): Tokens
    requires k <= 4
    decreases 4 - k
  {
    if k == 4 then End
    else
      var parts := PartsFrom(Left(time, UNITS[k]), k + 1);
      var count := Count(time, UNITS[k]);
      if count > 0 then More(Token(DigitsOf(count), UNITS[k]), parts) else parts
  }

  /** Hours, minutes, seconds, milliseconds, each less than one of the unit before; none that is zero. */
  function Parts(ms: nat): Tokens {
    PartsFrom(ms, 0)
  }

  ghost function Printed(ms: int): string {
    if ms <= 0 then "0s" else TextOf(Parts(ms))
  }

  /** What is printed and what is still to be printed make up the whole. */
  ghost predicate StillToPrint(text: string, rest: nat, k: nat, ms: nat) {
    k <= 4 && text + TextOf(PartsFrom(rest, k)) == TextOf(Parts(ms))
  }

  lemma PrintSome(text: string, rest: nat, k: nat, ms: nat)
    requires k < 4 && StillToPrint(text, rest, k, ms) && Count(rest, UNITS[k]) > 0
    ensures StillToPrint(text + DigitsOf(Count(rest, UNITS[k])) + UnitText(UNITS[k]), Left(rest, UNITS[k]), k + 1, ms)
  {
    var token, parts := Token(DigitsOf(Count(rest, UNITS[k])), UNITS[k]), PartsFrom(Left(rest, UNITS[k]), k + 1);
    assert PartsFrom(rest, k) == More(token, parts);
    assert TextOf(More(token, parts)) == token.number + UnitText(token.unit) + TextOf(parts);
  }

  lemma PrintNone(text: string, rest: nat, k: nat, ms: nat)
    requires k < 4 && StillToPrint(text, rest, k, ms) && Count(rest, UNITS[k]) == 0
    ensures StillToPrint(text, Left(rest, UNITS[k]), k + 1, ms)
  {}

  lemma AllPrinted(text: string, ms: nat)
    requires StillToPrint(text, 0, 4, ms)
    ensures text == TextOf(Parts(ms))
  {}

  method FormatDuration(ms: int) returns (text: string)
    ensures text == Printed(ms)
  {
    if ms <= 0 { return "0s"; }
    text := "";
    var rest: nat := ms;
    for k := 0 to 3
      invariant StillToPrint(text, rest, k, ms)
    {
      CountAndLeft(rest, UNITS[k]);
      var n := rest / Size(UNITS[k]);
      if n > 0 {
        PrintSome(text, rest, k, ms);
        text := text + DigitsOf(n) + UnitText(UNITS[k]);
        rest := rest - n * Size(UNITS[k]);
      } else {
        PrintNone(text, rest, k, ms);
      }
    }
    if rest > 0 {
      PrintSome(text, rest, 3, ms);
      text := text + DigitsOf(rest) + "ms";
    } else {
      PrintNone(text, rest, 3, ms);
    }
    AllPrinted(text, ms);
  }

  lemma DecimalOfDigits(n: nat)
    ensures IsNumber(DigitsOf(n)) && Decimal(DigitsOf(n)) == n as real
  {
    var s := DigitsOf(n);
    DigitRunStops(s, "");
    assert s + "" == s && s[..|s|] == s;
    DigitsReadBack(n);
  }

  lemma Scaled(count: nat, unit: Unit)
    ensures count as real * Size(unit) as real == (count * Size(unit)) as real
  {
    match unit
    case MS =>
    case S => assert count as real * 1_000.0 == (count * 1_000) as real;
    case M => assert count as real * 60_000.0 == (count * 60_000) as real;
    case H => assert count as real * 3_600_000.0 == (count * 3_600_000) as real;
    case D => assert count as real * 86_400_000.0 == (count * 86_400_000) as real;
  }

  lemma OnePart(count: nat, unit: Unit, parts: Tokens, left: nat)
    requires count > 0 && AllTokens(parts) && Total(parts) == left as real
    ensures var more := More(Token(DigitsOf(count), unit), parts);
      AllTokens(more) && Total(more) == (count * Size(unit) + left) as real
  {
    DecimalOfDigits(count);
    Scaled(count, unit);
  }

  lemma {:induction false} PartsAddUp(time: nat, k: nat)
    requires k <= 4 && (k == 4 ==> time == 0)
    ensures AllTokens(PartsFrom(time, k)) && Total(PartsFrom(time, k)) == time as real
    decreases 4 - k
  {
    if k < 4 {
      var unit := UNITS[k];
      var count, left := Count(time, unit), Left(time, unit);
      PartsAddUp(left, k + 1);
      CountAndLeft(time, unit);
      if count > 0 {
        OnePart(count, unit, PartsFrom(left, k + 1), left);
      }
    }
  }

  lemma {:induction false} SomePart(time: nat, k: nat)
    requires k < 4 && time > 0
    ensures PartsFrom(time, k).More?
    decreases 4 - k
  {
    CountAndLeft(time, UNITS[k]);
    if Count(time, UNITS[k]) == 0 && k < 3 {
      SomePart(time, k + 1);
    }
  }

  // ----- round trip -----

  lemma NumberEndsWithDigit(number: string)
    requires IsNumber(number)
    ensures number != "" && IsDigit(number[|number| - 1])
  {
    if !AllDigits(number) {
      var whole, fraction :| AllDigits(whole) && AllDigits(fraction) && number == whole + "." + fraction;
      assert number[|number| - 1] == fraction[|fraction| - 1];
    }
  }

  predicate IsUnitLetter(c: char) {
    c in "smhd"
  }

  lemma {:induction false} TextEndsInUnit(tokens: Tokens, text: string)
    requires tokens.More? && TextOf(tokens) == text
    ensures text != "" && IsUnitLetter(text[|text| - 1])
  {
    if tokens.tail.More? {
      TextEndsInUnit(tokens.tail, TextOf(tokens.tail));
    }
  }

  lemma NothingToTrim(s: string)
    requires s != "" && !IsSpace(s[0]) && !IsSpace(s[|s| - 1])
    ensures Trim(s) == s
  {}

  ghost predicate MeansTime(text: string, time: real) {
    Trim(text) == text && Accepted(text) && Meaning(text) == time
  }

  lemma LettersAreNoNumber(text: string)
    requires text != "" && IsUnitLetter(text[|text| - 1])
    ensures !IsNumber(text)
  {
    if IsNumber(text) {
      NumberEndsWithDigit(text);
      assert false;
    }
  }

  lemma MeaningByLex(text: string, tokens: Tokens)
    requires LexesTo(text, tokens, "") && !IsNumber(text)
    ensures Meaning(text) == Total(tokens)
  {}

  lemma EndsTrimmed(text: string)
    requires text != "" && IsDigit(text[0]) && IsUnitLetter(text[|text| - 1])
    ensures Trim(text) == text && !IsNumber(text)
  {
    NothingToTrim(text);
    LettersAreNoNumber(text);
  }

  lemma TextIsTrimmed(tokens: Tokens, text: string)
    requires tokens.More? && AllTokens(tokens) && TextOf(tokens) == text
    ensures Trim(text) == text && !IsNumber(text)
  {
    TextStartsWithDigit(tokens, text);
    TextEndsInUnit(tokens, text);
    EndsTrimmed(text);
  }

  lemma TextIsAccepted(tokens: Tokens, text: string)
    requires tokens.More? && AllTokens(tokens) && TextOf(tokens) == text
    ensures Accepted(text) && LexesTo(text, tokens, "")
  {
    LexOfText(tokens, text);
  }

  /** What tokens spell means their total. */
  lemma TextMeansTotal(tokens: Tokens, text: string)
    requires tokens.More? && AllTokens(tokens) && TextOf(tokens) == text
    ensures MeansTime(text, Total(tokens))
  {
    TextIsTrimmed(tokens, text);
    TextIsAccepted(tokens, text);
    MeaningByLex(text, tokens);
  }

  lemma MeansParsed(text: string, ms: nat)
    requires MeansTime(text, ms as real)
    ensures Parsed(text) == if ms >= 1 then Some(ms) else None
  {
    assert Round(ms as real) == ms;
  }

  lemma OneTokenMeans(token: Token, text: string)
    requires IsNumber(token.number) && Spell(token) == text
    ensures MeansTime(text, Milliseconds(token))
  {
    var tokens := More(token, End);
    assert TextOf(tokens) == Spell(token) + "";
    assert Total(tokens) == Milliseconds(token) + 0.0;
    TextMeansTotal(tokens, text);
  }

  lemma ZeroMeans(text: string)
    requires text == "0s"
    ensures MeansTime(text, 0.0)
  {
    var zero := Token(DigitsOf(0), S);
    DecimalOfDigits(0);
    assert Milliseconds(zero) == 0.0 * 1_000.0;
    OneTokenMeans(zero, text);
  }

  /** What is printed reads back as the same time, down to the millisecond; only "0s", printed for a time
      that is not positive, is refused. */
  lemma RoundTrip(ms: int)
    ensures Parsed(Printed(ms)) == if ms >= 1 then Some(ms) else None
  {
    if ms >= 1 {
      PartsAddUp(ms, 0);
      SomePart(ms, 0);
      TextMeansTotal(Parts(ms), Printed(ms));
      MeansParsed(Printed(ms), ms);
    } else {
      ZeroMeans(Printed(ms));
      MeansParsed(Printed(ms), 0);
    }
  }

  /** The milliseconds of a unit: 24 hours to the day, 60 minutes to the hour, 60 seconds to the minute. */
  function In(unit: Unit): nat {
    match unit
    case MS => 1
    case S => 1_000
    case M => 60 * 1_000
    case H => 60 * 60 * 1_000
    case D => 24 * 60 * 60 * 1_000
  }

  ghost predicate ParsesTo(text: string, ms: nat) {
    Parsed(text) == Some(ms)
  }

  lemma TotalParses(tokens: Tokens, text: string, ms: nat)
    requires tokens.More? && AllTokens(tokens) && TextOf(tokens) == text && Total(tokens) == ms as real && ms > 0
    ensures ParsesTo(text, ms)
  {
    TextMeansTotal(tokens, text);
    MeansParsed(text, ms);
  }

  lemma OneTokenText(token: Token, text: string)
    requires text == token.number + UnitText(token.unit)
    ensures TextOf(More(token, End)) == text
  {
    assert TextOf(More(token, End)) == Spell(token) + "";
  }

  /** What a whole number and a unit parse to. */
  lemma OneUnit(n: nat, unit: Unit, text: string)
    requires n > 0 && text == DigitsOf(n) + UnitText(unit)
    ensures ParsesTo(text, n * In(unit))
  {
    OneTokenText(Token(DigitsOf(n), unit), text);
    OnePart(n, unit, End, 0);
    TotalParses(More(Token(DigitsOf(n), unit), End), text, n * In(unit));
  }

  /** Without a unit the number is seconds. */
  lemma NoUnit(n: nat)
    requires n > 0
    ensures ParsesTo(DigitsOf(n), n * 1_000)
  {
    BareMeans(n);
    MeansParsed(DigitsOf(n), n * 1_000);
  }

  lemma BareMeans(n: nat)
    ensures MeansTime(DigitsOf(n), (n * 1_000) as real)
  {
    DecimalOfDigits(n);
    NumberStartsWithDigit(DigitsOf(n));
    NumberEndsWithDigit(DigitsOf(n));
    NothingToTrim(DigitsOf(n));
  }
}
