/**
 * `datetime.strptime` restricted to what `get_time_converter` asks of it:
 * the six reference-date templates built from %Y %m %d %H %M %S and the
 * literals '-', ':' and 'T'.
 *
 * CPython turns a format into a regular expression (one alternation per
 * directive, compiled case-insensitively), takes the FIRST match the
 * backtracking matcher finds at the start of the string, rejects it when
 * characters remain after it ("unconverted data remains"), and finally
 * builds a `datetime`, which rejects impossible dates.  `Matches` lists
 * every way a template matches a prefix, in the matcher's priority order,
 * so its head is the match CPython takes.
 */
module DateTemplates {
  import opened Outcomes

  datatype Field = Year | Month | Day | Hour | Minute | Second

  /** One element of a format: a literal character or a directive. */
  datatype Piece = Lit(c: char) | Fld(f: Field)

  /** A regular-expression character class: a range of characters, or the literal space. */
  datatype CharClass = Range(lo: char, hi: char) | Blank

  type Alternative = seq<CharClass>

  const AnyDigit := Range('0', '9')

  /** The alternatives CPython's `_strptime.TimeRE` uses for each directive, in order. */
  function Alternatives(f: Field): seq<Alternative> {
    match f
    case Year => [[AnyDigit, AnyDigit, AnyDigit, AnyDigit]]
    case Month => [[Range('1', '1'), Range('0', '2')], [Range('0', '0'), Range('1', '9')], [Range('1', '9')]]
    case Day =>
      [[Range('3', '3'), Range('0', '1')], [Range('1', '2'), AnyDigit], [Range('0', '0'), Range('1', '9')],
       [Range('1', '9')], [Blank, Range('1', '9')]]
    case Hour => [[Range('2', '2'), Range('0', '3')], [Range('0', '1'), AnyDigit], [AnyDigit]]
    case Minute => [[Range('0', '5'), AnyDigit], [AnyDigit]]
    case Second => [[Range('6', '6'), Range('0', '1')], [Range('0', '5'), AnyDigit], [AnyDigit]]
  }

  predicate ClassMatches(k: CharClass, c: char) {
    match k
    case Range(lo, hi) => lo <= c <= hi
    case Blank => c == ' '
  }

  /** The alternative matches the start of `s`. */
  predicate AltMatches(a: Alternative, s: string) {
    |a| <= |s| && forall i :: 0 <= i < |a| ==> ClassMatches(a[i], s[i])
  }

  function Fold(c: char): char {
    if 'A' <= c <= 'Z' then (c as int + 32) as char else c
  }

  /** Literals are compared case-insensitively (the pattern is compiled with IGNORECASE). */
  predicate LitMatches(l: char, c: char) {
    Fold(l) == Fold(c)
  }

  /** `int(text)` of a matched directive: its digits in base 10 (a leading blank is ignored). */
  function Digits(s: string): nat {
    if s == [] then 0
    else if '0' <= s[|s| - 1] <= '9' then 10 * Digits(s[..|s| - 1]) + (s[|s| - 1] as int - '0' as int)
    else Digits(s[..|s| - 1])
  }

  /** A successful match of a whole format against a prefix: the directive values and what is left. */
  datatype Match = Match(fields: seq<(Field, nat)>, rest: string)

  function Tag(f: Field, v: nat, ms: seq<Match>): (r: seq<Match>)
    ensures |r| == |ms|
    ensures forall i :: 0 <= i < |ms| ==> r[i] == Match([(f, v)] + ms[i].fields, ms[i].rest)
  {
    seq(|ms|, i requires 0 <= i < |ms| => Match([(f, v)] + ms[i].fields, ms[i].rest))
  }

  /** Every match of `t` against a prefix of `s`, in the backtracking matcher's priority order. */
  function Matches(t: seq<Piece>, s: string): seq<Match>
    decreases |t|, 0
  {
    if t == [] then [Match([], s)]
    else
      match t[0]
      case Lit(c) => if |s| > 0 && LitMatches(c, s[0]) then Matches(t[1..], s[1..]) else []
      case Fld(f) => FieldMatches(f, Alternatives(f), t[1..], s)
  }

  /** The matches that read directive `f` with one of `alts` (tried in order), then the rest `t`. */
  function FieldMatches(f: Field, alts: seq<Alternative>, t: seq<Piece>, s: string): seq<Match>
    decreases |t|, 1, |alts|
  {
    if alts == [] then []
    else
      var a := alts[0];
      (if AltMatches(a, s) then Tag(f, Digits(s[..|a|]), Matches(t, s[|a|..])) else [])
      + FieldMatches(f, alts[1..], t, s)
  }

  datatype DateTime = DateTime(year: int, month: int, day: int, hour: int, minute: int, second: int)

  predicate IsLeapYear(y: int) {
    y % 4 == 0 && (y % 100 != 0 || y % 400 == 0)
  }

  function DaysInMonth(y: int, m: int): int {
    if m == 2 then (if IsLeapYear(y) then 29 else 28)
    else if m == 4 || m == 6 || m == 9 || m == 11 then 30
    else 31
  }

  /** What `datetime(...)` accepts. */
  predicate ValidDateTime(d: DateTime) {
    && 1 <= d.year <= 9999 && 1 <= d.month <= 12 && 1 <= d.day <= DaysInMonth(d.year, d.month)
    && 0 <= d.hour <= 23 && 0 <= d.minute <= 59 && 0 <= d.second <= 59
  }

  /** Every field fits the width `strftime` pads it to. */
  predicate Printable(d: DateTime) {
    && 0 <= d.year <= 9999 && 0 <= d.month <= 99 && 0 <= d.day <= 99
    && 0 <= d.hour <= 99 && 0 <= d.minute <= 99 && 0 <= d.second <= 99
  }

  /** The value read for `f`, or `_strptime`'s default when the format lacks `f`. */
  function FieldValue(fields: seq<(Field, nat)>, f: Field, default: int): int {
    if fields == [] then default
    else if fields[0].0 == f then fields[0].1
    else FieldValue(fields[1..], f, default)
  }

  function Assemble(fields: seq<(Field, nat)>): DateTime {
    DateTime(FieldValue(fields, Year, 1900), FieldValue(fields, Month, 1), FieldValue(fields, Day, 1),
             FieldValue(fields, Hour, 0), FieldValue(fields, Minute, 0), FieldValue(fields, Second, 0))
  }

  /** `datetime.strptime(s, t)`: `None` where Python raises ValueError. */
  function Strptime(s: string, t: seq<Piece>): (r: Option<DateTime>)
    ensures r.Some? ==> ValidDateTime(r.value)
  {
    var ms := Matches(t, s);
    if ms == [] || ms[0].rest != [] then None
    else
      var d := Assemble(ms[0].fields);
      if ValidDateTime(d) then Some(d) else None
  }


  predicate IsDigit(c: char) {
    '0' <= c <= '9'
  }

  function DigitChar(n: int): (c: char)
    requires 0 <= n <= 9
    ensures IsDigit(c) && c as int - '0' as int == n
  {
    ('0' as int + n) as char
  }

  /** `n` zero-padded to two digits, as `strftime` writes %m %d %H %M %S. */
  function Pad2(n: int): string
    requires 0 <= n <= 99
  {
    [DigitChar(n / 10), DigitChar(n % 10)]
  }

  /** `n` zero-padded to four digits, as `strftime` writes %Y. */
  function Pad4(n: int): string
    requires 0 <= n <= 9999
  {
    Pad2(n / 100) + Pad2(n % 100)
  }

  function FieldOf(f: Field, d: DateTime): nat
    requires Printable(d)
  {
    match f
    case Year => d.year
    case Month => d.month
    case Day => d.day
    case Hour => d.hour
    case Minute => d.minute
    case Second => d.second
  }

  /** What `strftime` writes for directive `f`. */
  function FieldText(f: Field, d: DateTime): string
    requires Printable(d)
  {
    if f == Year then Pad4(d.year) else Pad2(FieldOf(f, d))
  }

  /** `d.strftime(t)`. */
  function Render(d: DateTime, t: seq<Piece>): string
    requires Printable(d)
  {
    if t == [] then []
    else (match t[0] case Lit(c) => [c] case Fld(f) => FieldText(f, d)) + Render(d, t[1..])
  }

  /** The directives of `t`, in order. */
  function Directives(t: seq<Piece>): seq<Field> {
    if t == [] then []
    else (match t[0] case Lit(_) => [] case Fld(f) => [f]) + Directives(t[1..])
  }

  /** The literal characters of `t`, case-folded, in order. */
  function Literals(t: seq<Piece>): string {
    if t == [] then []
    else (match t[0] case Lit(c) => [Fold(c)] case Fld(_) => []) + Literals(t[1..])
  }

  /** The directive values a template reads back from `Render(d, t)`. */
  function FieldsOf(d: DateTime, t: seq<Piece>): (r: seq<(Field, nat)>)
    requires Printable(d)
    ensures |r| == |Directives(t)|
  {
    var fs := Directives(t);
    seq(|fs|, i requires 0 <= i < |fs| => (fs[i], FieldOf(fs[i], d)))
  }

  /** The case-folded characters of `s` that no directive can read, in order. */
  function Separators(s: string): string {
    if s == [] then []
    else (if IsDigit(s[0]) || s[0] == ' ' then [] else [Fold(s[0])]) + Separators(s[1..])
  }

  /** No literal of `t` is a digit or a blank, the characters directives read. */
  predicate PlainLiterals(t: seq<Piece>) {
    forall i :: 0 <= i < |t| && t[i].Lit? ==> !IsDigit(t[i].c) && t[i].c != ' '
  }

  predicate NumericClass(k: CharClass) {
    k.Blank? || ('0' <= k.lo && k.hi <= '9')
  }

  /** Every alternative reads at least one character, and only digits or blanks. */
  predicate NumericAlternatives(alts: seq<Alternative>) {
    forall i :: 0 <= i < |alts| ==> alts[i] != [] && forall j :: 0 <= j < |alts[i]| ==> NumericClass(alts[i][j])
  }

  /** A match consumed the part of `s` before `rest`, and that part's separators are `lits`. */
  predicate Consumes(s: string, rest: string, lits: string) {
    |rest| <= |s| && s[|s| - |rest|..] == rest && Separators(s[..|s| - |rest|]) == lits
  }

  lemma SeparatorsAppend(a: string, b: string)
    ensures Separators(a + b) == Separators(a) + Separators(b)
    decreases |a|
  {
    if a == [] {
      assert a + b == b;
    } else {
      assert (a + b)[0] == a[0] && (a + b)[1..] == a[1..] + b;
      SeparatorsAppend(a[1..], b);
    }
  }

  /** What a numeric alternative reads holds no separator. */
  lemma {:induction false} NumericPrefix(a: Alternative, s: string)
    requires AltMatches(a, s)
    requires forall j :: 0 <= j < |a| ==> NumericClass(a[j])
    ensures Separators(s[..|a|]) == []
    decreases |a|
  {
    if a != [] {
      assert AltMatches(a[1..], s[1..]) by {
        forall j | 0 <= j < |a| - 1 ensures ClassMatches(a[1..][j], s[1..][j]) {
          assert ClassMatches(a[j + 1], s[j + 1]);
        }
      }
      NumericPrefix(a[1..], s[1..]);
      assert s[..|a|] == [s[0]] + s[1..][..|a| - 1];
      SeparatorsAppend([s[0]], s[1..][..|a| - 1]);
      assert ClassMatches(a[0], s[0]);
    }
  }

  /**
   * Every match of `t` consumes a prefix of `s` whose separators are exactly the
   * literals of `t`: directives read only digits and blanks, and each literal
   * reads one character equal to it up to case.
   */
  lemma {:induction false} MatchesConsume(t: seq<Piece>, s: string)
    requires PlainLiterals(t)
    ensures forall m :: m in Matches(t, s) ==> Consumes(s, m.rest, Literals(t))
    decreases |t|, 0
  {
    if t == [] {
      assert s[..|s| - |s|] == [];
    } else {
      assert PlainLiterals(t[1..]) by {
        forall i | 0 <= i < |t| - 1 && t[1..][i].Lit? ensures !IsDigit(t[1..][i].c) && t[1..][i].c != ' ' {
          assert t[1..][i] == t[i + 1];
        }
      }
      match t[0]
      case Lit(c) =>
        assert !IsDigit(t[0].c) && t[0].c != ' ';
        if |s| > 0 && LitMatches(c, s[0]) {
          MatchesConsume(t[1..], s[1..]);
          forall m | m in Matches(t, s) ensures Consumes(s, m.rest, Literals(t)) {
            var p := s[1..][..|s| - 1 - |m.rest|];
            assert s[..|s| - |m.rest|] == [s[0]] + p;
            SeparatorsAppend([s[0]], p);
          }
        }
      case Fld(f) =>
        FieldMatchesConsume(f, Alternatives(f), t[1..], s);
    }
  }

  lemma {:induction false} FieldMatchesConsume(f: Field, alts: seq<Alternative>, t: seq<Piece>, s: string)
    requires NumericAlternatives(alts) && PlainLiterals(t)
    ensures forall m :: m in FieldMatches(f, alts, t, s) ==> Consumes(s, m.rest, Literals(t))
    decreases |t|, 1, |alts|
  {
    if alts != [] {
      var a := alts[0];
      assert NumericAlternatives(alts[1..]) by {
        forall i | 0 <= i < |alts| - 1 ensures alts[1..][i] == alts[i + 1] { }
      }
      FieldMatchesConsume(f, alts[1..], t, s);
      if AltMatches(a, s) {
        var ms := Matches(t, s[|a|..]);
        MatchesConsume(t, s[|a|..]);
        NumericPrefix(a, s);
        var tagged := Tag(f, Digits(s[..|a|]), ms);
        forall m | m in tagged ensures Consumes(s, m.rest, Literals(t)) {
          var i :| 0 <= i < |tagged| && tagged[i] == m;
          assert ms[i] in ms;
          ShiftConsumes(s, |a|, m.rest, Literals(t));
        }
      }
    }
  }

  lemma ShiftConsumes(s: string, k: nat, rest: string, lits: string)
    requires k <= |s| && Separators(s[..k]) == [] && Consumes(s[k..], rest, lits)
    ensures Consumes(s, rest, lits)
  {
    var p := s[k..][..|s| - k - |rest|];
    assert s[..|s| - |rest|] == s[..k] + p;
    SeparatorsAppend(s[..k], p);
  }

  /** `strptime` succeeds only on strings whose separators are the template's literals. */
  lemma StrptimeSeparators(s: string, t: seq<Piece>)
    requires PlainLiterals(t)
    ensures Strptime(s, t).Some? ==> Separators(s) == Literals(t)
  {
    MatchesConsume(t, s);
    if Strptime(s, t).Some? {
      var m := Matches(t, s)[0];
      assert m in Matches(t, s);
      assert s[..|s|] == s;
    }
  }

  lemma DigitsSnoc(s: string, c: char)
    requires IsDigit(c)
    ensures Digits(s + [c]) == 10 * Digits(s) + (c as int - '0' as int)
  {
    assert (s + [c])[..|s|] == s;
  }

  lemma DigitsPad2(n: int)
    requires 0 <= n <= 99
    ensures Digits(Pad2(n)) == n
  {
    var p := Pad2(n);
    assert p == [p[0]] + [p[1]];
    DigitsSnoc([p[0]], p[1]);
    DigitsSnoc([], p[0]);
    assert [] + [p[0]] == [p[0]];
  }

  lemma DigitsPad4(n: int)
    requires 0 <= n <= 9999
    ensures Digits(Pad4(n)) == n
  {
    var p := Pad4(n);
    var hi := Pad2(n / 100);
    DigitsPad2(n / 100);
    assert p == hi + [p[2]] + [p[3]];
    DigitsSnoc(hi, p[2]);
    DigitsSnoc(hi + [p[2]], p[3]);
  }

  /**
   * When alternative `k` is the first that matches, the matches it starts
   * come first among the field's matches.
   */
  lemma {:induction false} FirstAlternative(f: Field, alts: seq<Alternative>, k: nat, t: seq<Piece>, s: string)
    requires k < |alts| && AltMatches(alts[k], s)
    requires forall j :: 0 <= j < k ==> !AltMatches(alts[j], s)
    requires Matches(t, s[|alts[k]|..]) != []
    ensures var ms := Matches(t, s[|alts[k]|..]);
      var fm := FieldMatches(f, alts, t, s);
      fm != [] && fm[0] == Match([(f, Digits(s[..|alts[k]|]))] + ms[0].fields, ms[0].rest)
    decreases k
  {
    if k > 0 {
      assert !AltMatches(alts[0], s);
      FirstAlternative(f, alts[1..], k - 1, t, s);
    }
  }

  /** Which alternative of `f`'s pattern is the first to match `FieldText(f, d)`. */
  function AltIndex(f: Field, d: DateTime): nat
    requires ValidDateTime(d)
  {
    match f
    case Year => 0
    case Month => if d.month >= 10 then 0 else 1
    case Day => if d.day >= 30 then 0 else if d.day >= 10 then 1 else 2
    case Hour => if d.hour >= 20 then 0 else 1
    case Minute => 0
    case Second => 1
  }

  /** Alternative `k` is the first of `alts` to match `s`. */
  predicate FirstMatching(alts: seq<Alternative>, k: nat, s: string) {
    k < |alts| && AltMatches(alts[k], s) && forall j :: 0 <= j < k ==> !AltMatches(alts[j], s)
  }

  /** The two characters `strftime` writes for a two-digit field. */
  lemma PadChars(n: int, s: string)
    requires 0 <= n <= 99 && |s| >= 2 && s[..2] == Pad2(n)
    ensures s[0] == DigitChar(n / 10) && s[1] == DigitChar(n % 10)
  {
    assert s[..2][0] == s[0] && s[..2][1] == s[1];
  }

  lemma MonthChoice(n: int, s: string)
    requires 1 <= n <= 12 && |s| >= 2 && s[..2] == Pad2(n)
    ensures FirstMatching(Alternatives(Month), if n >= 10 then 0 else 1, s)
  {
    PadChars(n, s);
  }

  lemma DayChoice(n: int, s: string)
    requires 1 <= n <= 31 && |s| >= 2 && s[..2] == Pad2(n)
    ensures FirstMatching(Alternatives(Day), if n >= 30 then 0 else if n >= 10 then 1 else 2, s)
  {
    PadChars(n, s);
  }

  lemma HourChoice(n: int, s: string)
    requires 0 <= n <= 23 && |s| >= 2 && s[..2] == Pad2(n)
    ensures FirstMatching(Alternatives(Hour), if n >= 20 then 0 else 1, s)
  {
    PadChars(n, s);
  }

  lemma MinuteChoice(n: int, s: string)
    requires 0 <= n <= 59 && |s| >= 2 && s[..2] == Pad2(n)
    ensures FirstMatching(Alternatives(Minute), 0, s)
  {
    PadChars(n, s);
  }

  lemma SecondChoice(n: int, s: string)
    requires 0 <= n <= 59 && |s| >= 2 && s[..2] == Pad2(n)
    ensures FirstMatching(Alternatives(Second), 1, s)
  {
    PadChars(n, s);
  }

  lemma YearChoice(n: int, s: string)
    requires 0 <= n <= 9999 && |s| >= 4 && s[..4] == Pad4(n)
    ensures FirstMatching(Alternatives(Year), 0, s)
  {
    assert s[..4] == Pad2(n / 100) + Pad2(n % 100);
    assert forall i :: 0 <= i < 4 ==> s[i] == s[..4][i];
  }

  /** Alternative `AltIndex(f, d)` is the first of `f`'s pattern to match what `strftime` wrote for `f`, and it takes all of it. */
  lemma AltChoice(f: Field, d: DateTime, s: string)
    requires ValidDateTime(d) && |FieldText(f, d)| <= |s| && s[..|FieldText(f, d)|] == FieldText(f, d)
    ensures FirstMatching(Alternatives(f), AltIndex(f, d), s)
    ensures |Alternatives(f)[AltIndex(f, d)]| == |FieldText(f, d)|
  {
    assert d.day <= 31;
    match f
    case Year => YearChoice(d.year, s);
    case Month => MonthChoice(d.month, s);
    case Day => DayChoice(d.day, s);
    case Hour => HourChoice(d.hour, s);
    case Minute => MinuteChoice(d.minute, s);
    case Second => SecondChoice(d.second, s);
  }

  /** A directive written by `strftime` is read back, whole, by the first match. */
  lemma FieldReadBack(f: Field, d: DateTime, t: seq<Piece>, rest: string)
    requires ValidDateTime(d) && Matches(t, rest) != []
    ensures var ms := Matches(t, rest);
      var fm := FieldMatches(f, Alternatives(f), t, FieldText(f, d) + rest);
      fm != [] && fm[0] == Match([(f, FieldOf(f, d))] + ms[0].fields, ms[0].rest)
  {
    var s := FieldText(f, d) + rest;
    var alts := Alternatives(f);
    var k := AltIndex(f, d);
    var text := FieldText(f, d);
    assert s[..|text|] == text && s[|text|..] == rest;
    AltChoice(f, d, s);
    if f == Year {
      DigitsPad4(d.year);
    } else {
      DigitsPad2(FieldOf(f, d));
    }
    FirstAlternative(f, alts, k, t, s);
  }

  /** The first match of `t` against what `strftime(t)` wrote reads back every directive value. */
  lemma {:induction false} RenderReadBack(d: DateTime, t: seq<Piece>, r: string)
    requires ValidDateTime(d)
    ensures Matches(t, Render(d, t) + r) != []
    ensures Matches(t, Render(d, t) + r)[0] == Match(FieldsOf(d, t), r)
    decreases |t|
  {
    if t == [] {
      assert Render(d, t) + r == r;
    } else {
      RenderReadBack(d, t[1..], r);
      if t[0].Lit? {
        LiteralReadBack(d, t, r);
      } else {
        DirectiveReadBack(d, t, r);
      }
    }
  }

  lemma LiteralReadBack(d: DateTime, t: seq<Piece>, r: string)
    requires ValidDateTime(d) && t != [] && t[0].Lit?
    requires Matches(t[1..], Render(d, t[1..]) + r) != []
    requires Matches(t[1..], Render(d, t[1..]) + r)[0] == Match(FieldsOf(d, t[1..]), r)
    ensures Matches(t, Render(d, t) + r) != []
    ensures Matches(t, Render(d, t) + r)[0] == Match(FieldsOf(d, t), r)
  {
    RenderLiteral(d, t, r);
    MatchesLiteral(t, Render(d, t) + r);
    FieldsOfLiteral(d, t);
  }

  lemma RenderLiteral(d: DateTime, t: seq<Piece>, r: string)
    requires Printable(d) && t != [] && t[0].Lit?
    ensures Render(d, t) + r == [t[0].c] + (Render(d, t[1..]) + r)
  { }

  /** A literal that the text starts with is consumed and matching goes on with the rest. */
  lemma MatchesLiteral(t: seq<Piece>, s: string)
    requires t != [] && t[0].Lit? && |s| > 0 && s[0] == t[0].c
    ensures Matches(t, s) == Matches(t[1..], s[1..])
  {
    assert LitMatches(t[0].c, s[0]);
  }

  lemma FieldsOfLiteral(d: DateTime, t: seq<Piece>)
    requires Printable(d) && t != [] && t[0].Lit?
    ensures FieldsOf(d, t) == FieldsOf(d, t[1..])
  {
    assert Directives(t) == Directives(t[1..]);
  }

  lemma DirectiveReadBack(d: DateTime, t: seq<Piece>, r: string)
    requires ValidDateTime(d) && t != [] && t[0].Fld?
    requires Matches(t[1..], Render(d, t[1..]) + r) != []
    requires Matches(t[1..], Render(d, t[1..]) + r)[0] == Match(FieldsOf(d, t[1..]), r)
    ensures Matches(t, Render(d, t) + r) != []
    ensures Matches(t, Render(d, t) + r)[0] == Match(FieldsOf(d, t), r)
  {
    var f := t[0].f;
    var tail := Render(d, t[1..]) + r;
    assert Render(d, t) + r == FieldText(f, d) + tail;
    assert Matches(t, Render(d, t) + r) == FieldMatches(f, Alternatives(f), t[1..], FieldText(f, d) + tail);
    FieldReadBack(f, d, t[1..], tail);
    FieldsOfDirective(d, t);
  }

  lemma FieldsOfDirective(d: DateTime, t: seq<Piece>)
    requires Printable(d) && t != [] && t[0].Fld?
    ensures FieldsOf(d, t) == [(t[0].f, FieldOf(t[0].f, d))] + FieldsOf(d, t[1..])
  {
    assert Directives(t) == [t[0].f] + Directives(t[1..]);
  }

  const AllFields := [Year, Month, Day, Hour, Minute, Second]

  /** `strptime(strftime(d, t), t) == d` for a template that has every directive once, in order. */
  lemma RenderParses(d: DateTime, t: seq<Piece>)
    requires ValidDateTime(d) && Directives(t) == AllFields
    ensures Strptime(Render(d, t), t) == Some(d)
  {
    RenderReadBack(d, t, []);
    assert Render(d, t) + [] == Render(d, t);
    FieldsInOrder(d, t);
    AssembleInOrder(d);
  }

  /** A template with every directive once, in order, reads the fields of `d` in that order. */
  lemma FieldsInOrder(d: DateTime, t: seq<Piece>)
    requires Printable(d) && Directives(t) == AllFields
    ensures FieldsOf(d, t) == InOrder(d)
  {
    var fields := FieldsOf(d, t);
    forall i | 0 <= i < |fields|
      ensures fields[i] == InOrder(d)[i]
    {
      assert Directives(t)[i] == AllFields[i];
    }
  }

  /** The directive values of `d` in the order every template lists them. */
  function InOrder(d: DateTime): seq<(Field, nat)>
    requires Printable(d)
  {
    [(Year, d.year), (Month, d.month), (Day, d.day), (Hour, d.hour), (Minute, d.minute), (Second, d.second)]
  }

  lemma AssembleInOrder(d: DateTime)
    requires ValidDateTime(d)
    ensures Assemble(InOrder(d)) == d
  {
    var f6: seq<(Field, nat)> := [(Second, d.second)];
    var f5 := [(Minute, d.minute as nat)] + f6;
    var f4 := [(Hour, d.hour as nat)] + f5;
    var f3 := [(Day, d.day as nat)] + f4;
    var f2 := [(Month, d.month as nat)] + f3;
    var f1 := [(Year, d.year as nat)] + f2;
    assert f1[1..] == f2 && f2[1..] == f3 && f3[1..] == f4 && f4[1..] == f5 && f5[1..] == f6;
    assert FieldValue(f1, Second, 0) == FieldValue(f2, Second, 0) == FieldValue(f3, Second, 0)
      == FieldValue(f4, Second, 0) == FieldValue(f5, Second, 0) == d.second;
    assert FieldValue(f1, Minute, 0) == FieldValue(f2, Minute, 0) == FieldValue(f3, Minute, 0)
      == FieldValue(f4, Minute, 0) == d.minute;
    assert FieldValue(f1, Hour, 0) == FieldValue(f2, Hour, 0) == FieldValue(f3, Hour, 0) == d.hour;
    assert FieldValue(f1, Day, 1) == FieldValue(f2, Day, 1) == FieldValue(f3, Day, 1) == d.day;
    assert FieldValue(f1, Month, 1) == FieldValue(f2, Month, 1) == d.month;
    assert FieldValue(f1, Year, 1900) == d.year;
    assert f1 == InOrder(d);
  }

  lemma RenderAppend(d: DateTime, a: seq<Piece>, b: seq<Piece>)
    requires Printable(d)
    ensures Render(d, a + b) == Render(d, a) + Render(d, b)
    decreases |a|
  {
    if a == [] {
      assert a + b == b;
    } else {
      assert (a + b)[0] == a[0] && (a + b)[1..] == a[1..] + b;
      RenderAppend(d, a[1..], b);
    }
  }

  /** `strftime` writes nothing but digits and the template's own literals. */
  lemma {:induction false} RenderChars(d: DateTime, t: seq<Piece>)
    requires Printable(d)
    ensures forall c :: c in Render(d, t) ==> IsDigit(c) || Lit(c) in t
  {
    if t != [] {
      RenderChars(d, t[1..]);
      var head := match t[0] case Lit(c) => [c] case Fld(f) => FieldText(f, d);
      assert Render(d, t) == head + Render(d, t[1..]);
      assert forall c :: c in head ==> IsDigit(c) || Lit(c) == t[0];
      assert forall p :: p in t[1..] ==> p in t;
    }
  }

  /** '%Y%m%dT%H%M%S' */
  const Compact: seq<Piece> := [Fld(Year), Fld(Month), Fld(Day), Lit('T'), Fld(Hour), Fld(Minute), Fld(Second)]
  /** '%Y-%m-%dT%H%M%S' */
  const DashedDate: seq<Piece> :=
    [Fld(Year), Lit('-'), Fld(Month), Lit('-'), Fld(Day), Lit('T'), Fld(Hour), Fld(Minute), Fld(Second)]
  /** '%Y%m%dT%H:%M:%S' */
  const ColonTime: seq<Piece> :=
    [Fld(Year), Fld(Month), Fld(Day), Lit('T'), Fld(Hour), Lit(':'), Fld(Minute), Lit(':'), Fld(Second)]
  /** '%Y-%m-%dT%H:%M:%S' */
  const DashedDateColonTime: seq<Piece> :=
    [Fld(Year), Lit('-'), Fld(Month), Lit('-'), Fld(Day), Lit('T'),
     Fld(Hour), Lit(':'), Fld(Minute), Lit(':'), Fld(Second)]
  /** '%Y%m%dT%H-%M-%S' */
  const DashedTime: seq<Piece> :=
    [Fld(Year), Fld(Month), Fld(Day), Lit('T'), Fld(Hour), Lit('-'), Fld(Minute), Lit('-'), Fld(Second)]
  /** '%Y-%m-%dT%H-%M-%S' */
  const Dashed: seq<Piece> :=
    [Fld(Year), Lit('-'), Fld(Month), Lit('-'), Fld(Day), Lit('T'),
     Fld(Hour), Lit('-'), Fld(Minute), Lit('-'), Fld(Second)]

  /** The six templates of geodataset/utils.py, in the order they are tried. */
  const Templates: seq<seq<Piece>> := [Compact, DashedDate, ColonTime, DashedDateColonTime, DashedTime, Dashed]

  /** The case-folded literals of each template, in template order. */
  const TemplateLiterals: seq<string> := ["t", "--t", "t::", "--t::", "t--", "--t--"]

  lemma CompactDirectives()
    ensures Directives(Compact) == AllFields
  { }

  lemma CompactPlain()
    ensures PlainLiterals(Compact)
  { }

  lemma CompactLiterals()
    ensures Literals(Compact) == TemplateLiterals[0]
  { }

  lemma DashedDateDirectives()
    ensures Directives(DashedDate) == AllFields
  { }

  lemma DashedDatePlain()
    ensures PlainLiterals(DashedDate)
  { }

  lemma DashedDateLiterals()
    ensures Literals(DashedDate) == TemplateLiterals[1]
  { }

  lemma ColonTimeDirectives()
    ensures Directives(ColonTime) == AllFields
  { }

  lemma ColonTimePlain()
    ensures PlainLiterals(ColonTime)
  { }

  lemma ColonTimeLiterals()
    ensures Literals(ColonTime) == TemplateLiterals[2]
  { }

  lemma DashedDateColonTimeDirectives()
    ensures Directives(DashedDateColonTime) == AllFields
  { }

  lemma DashedDateColonTimePlain()
    ensures PlainLiterals(DashedDateColonTime)
  { }

  lemma DashedDateColonTimeLiterals()
    ensures Literals(DashedDateColonTime) == TemplateLiterals[3]
  { }

  lemma DashedTimeDirectives()
    ensures Directives(DashedTime) == AllFields
  { }

  lemma DashedTimePlain()
    ensures PlainLiterals(DashedTime)
  { }

  lemma DashedTimeLiterals()
    ensures Literals(DashedTime) == TemplateLiterals[4]
  { }

  lemma DashedDirectives()
    ensures Directives(Dashed) == AllFields
  { }

  lemma DashedPlain()
    ensures PlainLiterals(Dashed)
  { }

  lemma DashedLiterals()
    ensures Literals(Dashed) == TemplateLiterals[5]
  { }

  /** Every template lists each directive once, Y m d H M S, and has its own literals. */
  lemma TemplateShape(k: nat)
    requires k < |Templates|
    ensures Directives(Templates[k]) == AllFields && PlainLiterals(Templates[k])
    ensures Literals(Templates[k]) == TemplateLiterals[k]
  {
    var t := Templates[k];
    if k == 0 {
      assert t == Compact;
      CompactDirectives();
      CompactPlain();
      CompactLiterals();
    } else if k == 1 {
      assert t == DashedDate;
      DashedDateDirectives();
      DashedDatePlain();
      DashedDateLiterals();
    } else if k == 2 {
      assert t == ColonTime;
      ColonTimeDirectives();
      ColonTimePlain();
      ColonTimeLiterals();
    } else if k == 3 {
      assert t == DashedDateColonTime;
      DashedDateColonTimeDirectives();
      DashedDateColonTimePlain();
      DashedDateColonTimeLiterals();
    } else if k == 4 {
      assert t == DashedTime;
      DashedTimeDirectives();
      DashedTimePlain();
      DashedTimeLiterals();
    } else {
      assert t == Dashed;
      DashedDirectives();
      DashedPlain();
      DashedLiterals();
    }
  }

  /** No string parses under two different templates, so the order they are tried in never matters. */
  lemma AtMostOneTemplate(s: string, i: nat, j: nat)
    requires i < |Templates| && j < |Templates|
    requires Strptime(s, Templates[i]).Some? && Strptime(s, Templates[j]).Some?
    ensures i == j
  {
    TemplateShape(i);
    TemplateShape(j);
    StrptimeSeparators(s, Templates[i]);
    StrptimeSeparators(s, Templates[j]);
    LiteralsDistinct(i, j);
  }

  lemma LiteralsDistinct(i: nat, j: nat)
    requires i < |TemplateLiterals| && j < |TemplateLiterals| && TemplateLiterals[i] == TemplateLiterals[j]
    ensures i == j
  {
    var a, b := TemplateLiterals[i], TemplateLiterals[j];
    assert |a| == |b| && a[0] == b[0];
    if |a| > 1 {
      assert a[1] == b[1];
    }
    if |a| > 3 {
      assert a[3] == b[3];
    }
  }

  /** Writing a valid date with any template and parsing it back with the same template gives the date. */
  lemma TemplateRoundTrip(d: DateTime, k: nat)
    requires ValidDateTime(d) && k < |Templates|
    ensures Strptime(Render(d, Templates[k]), Templates[k]) == Some(d)
  {
    TemplateShape(k);
    RenderParses(d, Templates[k]);
  }
}
