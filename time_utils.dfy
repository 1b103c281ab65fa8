/**
 * geodataset/utils.py: finding the time dimension of a file, and building
 * the time converter from the `units` (and `calendar`) attributes of its
 * time variable.  The converter itself (netcdftime's `utime`) is foreign:
 * it is represented by the values `get_time_converter` hands to it.
 */
module TimeUtils {
  import opened Outcomes
  import opened Strings
  import opened NetCdf
  import opened DateTemplates

  /** The names a time dimension goes by, in priority order. */
  const TimeNameCandidates: seq<string> := ["time", "time0", "time_counter", "time_bnds"]

  /** `get_time_name(nc)`: the first candidate that is a dimension of the file, if any. */
  method GetTimeName(dimensions: set<string>) returns (timeName: Option<string>)
    ensures timeName == FirstPresent(TimeNameCandidates, dimensions)
    ensures timeName.Some? ==> timeName.value in dimensions
    ensures timeName.Some? ==>
      exists k :: 0 <= k < |TimeNameCandidates| && TimeNameCandidates[k] == timeName.value
        && forall j :: 0 <= j < k ==> TimeNameCandidates[j] !in dimensions
    ensures timeName.None? <==> forall k :: 0 <= k < |TimeNameCandidates| ==> TimeNameCandidates[k] !in dimensions
  {
    timeName := None;
    var k := 0;
    while k < |TimeNameCandidates|
      invariant 0 <= k <= |TimeNameCandidates|
      invariant forall j :: 0 <= j < k ==> TimeNameCandidates[j] !in dimensions
      invariant FirstPresent(TimeNameCandidates[k..], dimensions) == FirstPresent(TimeNameCandidates, dimensions)
    {
      if TimeNameCandidates[k] in dimensions {
        assert TimeNameCandidates[k..][0] == TimeNameCandidates[k];
        timeName := Some(TimeNameCandidates[k]);
        return;
      }
      assert TimeNameCandidates[k..][1..] == TimeNameCandidates[k + 1..];
      k := k + 1;
    }
  }

  /** The unit word: the first word of the units with every leading and trailing 's' removed, 'econd' repaired. */
  function NormaliseUnit(word: string): (unit: string)
    ensures unit == "second" || Strip(word, 's') == unit
  {
    var u := Strip(word, 's');
    if u == "econd" then "second" else u
  }

  /** The plural unit words all come out singular. */
  lemma UnitWords()
    ensures NormaliseUnit("seconds") == "second"
    ensures NormaliseUnit("hours") == "hour"
    ensures NormaliseUnit("days") == "day"
    ensures NormaliseUnit("second") == "second"
  {
    StripAppended("hour", 's');
    assert "hour" + ['s'] == "hours";
    StripAppended("day", 's');
    assert "day" + ['s'] == "days";
    SecondsStrip();
  }

  lemma SecondsStrip()
    ensures Strip("seconds", 's') == "econd" && Strip("second", 's') == "econd"
  {
    assert StripLeft("seconds", 's') == 1 && StripLeft("second", 's') == 1;
    assert "seconds"[1..] == "econds" && "second"[1..] == "econd";
    StripAppended("econd", 's');
    assert "econd" + ['s'] == "econds";
  }

  /** Normalising the unit word written into a converter's unit string gives the same unit back. */
  lemma UnitIdempotent(word: string)
    ensures NormaliseUnit(NormaliseUnit(word) + "s") == NormaliseUnit(word)
  {
    var u := NormaliseUnit(word);
    if u == "second" {
      assert u + "s" == "seconds";
      UnitWords();
    } else {
      assert u == Strip(word, 's') && u != "econd";
      assert u + "s" == u + ['s'];
      StripAppended(u, 's');
    }
  }

  /** The reference date: tokens 3 and 4 of the units, once every 'T' is a space and every 'Z' is gone, joined by 'T'. */
  function ReferenceDate(units: string): (r: Result<string>)
    ensures r.Fail? <==> |Split(RemoveChar(ReplaceChar(units, 'T', ' '), 'Z'))| < 4
  {
    var parts := Split(RemoveChar(ReplaceChar(units, 'T', ' '), 'Z'));
    if |parts| < 4 then Fail(IndexError) else Ok(parts[2] + "T" + parts[3])
  }

  /** The result of the first template, from number `k` on, under which `s` parses. */
  function FirstParse(s: string, k: nat): (r: Option<DateTime>)
    requires k <= |Templates|
    ensures r.Some? ==> ValidDateTime(r.value)
    decreases |Templates| - k
  {
    if k == |Templates| then None
    else
      var parsed := Strptime(s, Templates[k]);
      if parsed.Some? then parsed else FirstParse(s, k + 1)
  }

  /** `FirstParse` gives the parse of the earliest accepting template, and nothing when none accepts. */
  lemma {:induction false} FirstParseSpec(s: string, k: nat)
    requires k <= |Templates|
    ensures FirstParse(s, k).Some? ==>
      exists j :: k <= j < |Templates| && Strptime(s, Templates[j]) == FirstParse(s, k)
        && forall i :: k <= i < j ==> Strptime(s, Templates[i]).None?
    ensures FirstParse(s, k).None? <==> forall j :: k <= j < |Templates| ==> Strptime(s, Templates[j]).None?
    decreases |Templates| - k
  {
    if k < |Templates| {
      FirstParseSpec(s, k + 1);
      if Strptime(s, Templates[k]).None? && FirstParse(s, k).Some? {
        var j :| k + 1 <= j < |Templates| && Strptime(s, Templates[j]) == FirstParse(s, k + 1)
          && forall i :: k + 1 <= i < j ==> Strptime(s, Templates[i]).None?;
        assert forall i :: k <= i < j ==> Strptime(s, Templates[i]).None?;
      }
    }
  }

  /** The format of the reference date in the converter's unit string: '%Y-%m-%d %H-%M-%S'. */
  const InitFormat: seq<Piece> :=
    [Fld(Year), Lit('-'), Fld(Month), Lit('-'), Fld(Day), Lit(' '),
     Fld(Hour), Lit('-'), Fld(Minute), Lit('-'), Fld(Second)]

  /** The unit string handed to netcdftime: '<unit>s since YYYY-MM-DD HH-MM-SS'. */
  function InitString(unit: string, origin: DateTime): string
    requires ValidDateTime(origin)
  {
    unit + "s since " + Render(origin, InitFormat)
  }

  /** What `get_time_converter` hands to netcdftime's `utime`. */
  datatype Converter = Converter(unit: string, unitString: string, origin: DateTime, calendar: Option<AttValue>) {
    /** `utime.units`, lower-cased as the readers use it. */
    function Units(): string {
      Lower(unit + "s")
    }
  }

  /** `time.units` as a string: AttributeError when absent, or when not text (it has no `split`). */
  function UnitsText(time: NcVariable): (r: Result<string>)
    ensures r.Ok? <==> "units" in time.attributes && time.attributes["units"].Text?
    ensures r.Ok? ==> time.attributes["units"] == Text(r.value)
    ensures "units" !in time.attributes ==> r == Fail(AttributeError("units"))
  {
    if "units" !in time.attributes then Fail(AttributeError("units"))
    else match time.attributes["units"]
      case Text(s) => Ok(s)
      case _ => Fail(AttributeError("split"))
  }

  /** The calendar passed to `utime`: present exactly when the variable declares one. */
  function Calendar(time: NcVariable): (c: Option<AttValue>)
    ensures c.Some? <==> "calendar" in time.attributes
    ensures c.Some? ==> c.value == time.attributes["calendar"]
  {
    if "calendar" in time.attributes then Some(time.attributes["calendar"]) else None
  }

  /** `get_time_converter(time)`. */
  function TimeConverter(time: NcVariable): (r: Result<Converter>)
    ensures "units" !in time.attributes ==> r == Fail(AttributeError("units"))
    ensures r.Ok? ==> UnitsText(time).Ok? && Split(UnitsText(time).value) != []
    ensures r.Ok? ==>
      && ValidDateTime(r.value.origin) && r.value.calendar == Calendar(time)
      && r.value.unitString == InitString(r.value.unit, r.value.origin)
  {
    var units :- UnitsText(time);
    var words := Split(units);
    if words == [] then Fail(IndexError)
    else
      var unit := NormaliseUnit(words[0]);
      var date :- ReferenceDate(units);
      match FirstParse(date, 0)
      case None => Fail(ValueError("Unknown format of time in " + units))
      case Some(origin) => Ok(Converter(unit, InitString(unit, origin), origin, Calendar(time)))
  }

  /** `get_time_converter(time)`. */
  method GetTimeConverter(time: NcVariable) returns (r: Result<Converter>)
    ensures r == TimeConverter(time)
  {
    var units :- UnitsText(time);
    var timeInfo := Split(units);
    if |timeInfo| == 0 {
      return Fail(IndexError);
    }
    var unit := NormaliseUnit(timeInfo[0]);
    var date :- ReferenceDate(units);
    var reftime := ParseReference(date);
    if reftime.None? {
      return Fail(ValueError("Unknown format of time in " + units));
    }
    r := Ok(Converter(unit, InitString(unit, reftime.value), reftime.value, Calendar(time)));
  }

  /** The loop of `get_time_converter` over the templates: tries them in order and stops at the first that parses. */
  method ParseReference(date: string) returns (reftime: Option<DateTime>)
    ensures reftime == FirstParse(date, 0)
  {
    reftime := None;
    var k := 0;
    while k < |Templates|
      invariant 0 <= k <= |Templates|
      invariant reftime.None? ==> FirstParse(date, k) == FirstParse(date, 0)
      invariant reftime.Some? ==> reftime == FirstParse(date, 0)
      decreases |Templates| - k, if reftime.None? then 1 else 0
    {
      var parsed := Strptime(date, Templates[k]);
      if parsed.Some? {
        reftime := parsed;
        break;
      }
      k := k + 1;
    }
  }

  /** The reference date is read by the first template that accepts it, and no earlier template accepts it. */
  lemma ConverterOrigin(time: NcVariable)
    requires TimeConverter(time).Ok?
    ensures var c := TimeConverter(time).value;
      exists date, k :: ReferenceDate(UnitsText(time).value) == Ok(date) && 0 <= k < |Templates|
        && Strptime(date, Templates[k]) == Some(c.origin)
        && forall i :: 0 <= i < k ==> Strptime(date, Templates[i]).None?
  {
    var date := ReferenceDate(UnitsText(time).value).value;
    var c := TimeConverter(time).value;
    assert FirstParse(date, 0) == Some(c.origin);
    FirstParseSpec(date, 0);
  }

  /** The units fail with ValueError exactly when their reference date parses under no template. */
  lemma ConverterRejects(time: NcVariable)
    requires UnitsText(time).Ok? && Split(UnitsText(time).value) != []
    requires ReferenceDate(UnitsText(time).value).Ok?
    ensures TimeConverter(time).Fail? && TimeConverter(time).error.ValueError?
      <==> forall k :: 0 <= k < |Templates| ==> Strptime(ReferenceDate(UnitsText(time).value).value, Templates[k]).None?
  {
    FirstParseSpec(ReferenceDate(UnitsText(time).value).value, 0);
  }

  /** '%Y-%m-%d' and '%H-%M-%S': the two halves of both the converter's date and the last template. */
  const DatePart: seq<Piece> := [Fld(Year), Lit('-'), Fld(Month), Lit('-'), Fld(Day)]
  const TimePart: seq<Piece> := [Fld(Hour), Lit('-'), Fld(Minute), Lit('-'), Fld(Second)]

  /** Fields separated by dashes, a field first: the shape of both halves. */
  predicate DashSeparated(t: seq<Piece>) {
    |t| > 0 && t[0].Fld? && forall i :: 0 <= i < |t| ==> t[i].Fld? || t[i] == Lit('-')
  }

  /** Dash-separated fields render to a single word of digits and dashes. */
  lemma DashedWord(d: DateTime, t: seq<Piece>)
    requires ValidDateTime(d) && DashSeparated(t)
    ensures IsWord(Render(d, t)) && 'T' !in Render(d, t) && 'Z' !in Render(d, t)
  {
    var w := Render(d, t);
    RenderChars(d, t);
    forall c | Lit(c) in t
      ensures c == '-'
    {
      var i :| 0 <= i < |t| && t[i] == Lit(c);
    }
    forall i | 0 <= i < |w|
      ensures !IsSpace(w[i])
    {
      assert w[i] in w;
    }
    RenderAppend(d, t[..1], t[1..]);
    assert t[..1] + t[1..] == t;
    assert Render(d, t[..1]) != [];
  }

  /** A rendered half is a single word of digits and dashes. */
  lemma HalfWord(d: DateTime, t: seq<Piece>)
    requires ValidDateTime(d) && (t == DatePart || t == TimePart)
    ensures IsWord(Render(d, t)) && 'T' !in Render(d, t) && 'Z' !in Render(d, t)
  {
    assert DashSeparated(t);
    DashedWord(d, t);
  }

  /** The converter's unit string splits into its unit, 'since', and the two halves of its reference date. */
  lemma {:induction false} InitStringWords(unit: string, d: DateTime)
    requires ValidDateTime(d) && IsWord(unit + "s")
    ensures InitString(unit, d) == JoinWords([unit + "s", "since", Render(d, DatePart), Render(d, TimePart)])
  {
    var a, b := Render(d, DatePart), Render(d, TimePart);
    InitFormatHalves(d);
    JoinFour(unit + "s", "since", a, b);
    assert unit + "s since " + (a + " " + b) == unit + "s" + " " + ("since" + " " + (a + " " + b));
  }

  /** The reference date renders as its date half, a space, and its time half. */
  lemma InitFormatHalves(d: DateTime)
    requires ValidDateTime(d)
    ensures Render(d, InitFormat) == Render(d, DatePart) + " " + Render(d, TimePart)
  {
    assert InitFormat == DatePart + ([Lit(' ')] + TimePart);
    RenderAppend(d, DatePart, [Lit(' ')] + TimePart);
    RenderAppend(d, [Lit(' ')], TimePart);
    assert Render(d, [Lit(' ')]) == " ";
  }

  lemma JoinFour(w0: string, w1: string, w2: string, w3: string)
    ensures JoinWords([w0, w1, w2, w3]) == w0 + " " + (w1 + " " + (w2 + " " + w3))
  {
    var words := [w0, w1, w2, w3];
    assert words[1..] == [w1, w2, w3] && words[1..][1..] == [w2, w3] && words[1..][1..][1..] == [w3];
    assert JoinWords([w3]) == w3;
    assert JoinWords([w2, w3]) == w2 + " " + w3;
    assert JoinWords([w1, w2, w3]) == w1 + " " + (w2 + " " + w3);
  }

  /** A unit string the converter writes splits back into its four words, and its reference date is the last template's. */
  lemma InitStringParts(unit: string, d: DateTime)
    requires ValidDateTime(d) && IsWord(unit + "s") && 'T' !in unit && 'Z' !in unit
    ensures Split(InitString(unit, d)) == [unit + "s", "since", Render(d, DatePart), Render(d, TimePart)]
    ensures ReferenceDate(InitString(unit, d)) == Ok(Render(d, Dashed))
  {
    var s := InitString(unit, d);
    InitStringSplit(unit, d);
    ReplaceAbsent(s, 'T', ' ');
    RemoveAbsent(s, 'Z');
    DashedHalves(d);
  }

  lemma InitStringSplit(unit: string, d: DateTime)
    requires ValidDateTime(d) && IsWord(unit + "s") && 'T' !in unit && 'Z' !in unit
    ensures Split(InitString(unit, d)) == [unit + "s", "since", Render(d, DatePart), Render(d, TimePart)]
    ensures 'T' !in InitString(unit, d) && 'Z' !in InitString(unit, d)
  {
    var a, b := Render(d, DatePart), Render(d, TimePart);
    var words := [unit + "s", "since", a, b];
    InitStringWords(unit, d);
    HalfWord(d, DatePart);
    HalfWord(d, TimePart);
    assert IsWord("since");
    SplitJoin(words);
    assert 'T' !in unit + "s" && 'Z' !in unit + "s";
    JoinWordsAvoids(words, 'T');
    JoinWordsAvoids(words, 'Z');
  }

  lemma DashedHalves(d: DateTime)
    requires ValidDateTime(d)
    ensures Render(d, Dashed) == Render(d, DatePart) + "T" + Render(d, TimePart)
  {
    assert Dashed == DatePart + ([Lit('T')] + TimePart);
    RenderAppend(d, DatePart, [Lit('T')] + TimePart);
    RenderAppend(d, [Lit('T')], TimePart);
    assert Render(d, [Lit('T')]) == "T";
  }

  /** A date the last template writes is read by that template, and by no earlier one. */
  lemma DashedFirstParse(d: DateTime)
    requires ValidDateTime(d)
    ensures FirstParse(Render(d, Dashed), 0) == Some(d)
  {
    var s := Render(d, Dashed);
    assert Templates[5] == Dashed;
    TemplateRoundTrip(d, 5);
    FirstParseSpec(s, 0);
    if FirstParse(s, 0).Some? {
      var j :| 0 <= j < |Templates| && Strptime(s, Templates[j]) == FirstParse(s, 0);
      AtMostOneTemplate(s, j, 5);
    }
  }

  /** The unit a converter keeps is a run of non-space characters. */
  lemma ConverterUnitWord(time: NcVariable)
    requires TimeConverter(time).Ok?
    ensures IsWord(TimeConverter(time).value.unit + "s")
  {
    var c := TimeConverter(time).value;
    var word := Split(UnitsText(time).value)[0];
    assert word in Split(UnitsText(time).value);
    UnitChars(word);
    var u := c.unit + "s";
    assert forall i :: 0 <= i < |u| ==> u[i] == (if i < |c.unit| then c.unit[i] else 's');
  }

  lemma UnitChars(word: string)
    requires forall c :: c in word ==> !IsSpace(c)
    ensures forall i :: 0 <= i < |NormaliseUnit(word)| ==> !IsSpace(NormaliseUnit(word)[i])
  {
    var u := NormaliseUnit(word);
    if u != "second" {
      assert forall i :: 0 <= i < |u| ==> u[i] in word;
    }
  }

  /** The converter's unit string, read again by `get_time_converter`, gives the converter back. */
  lemma ConverterIdempotent(time: NcVariable, again: NcVariable)
    requires TimeConverter(time).Ok?
    requires 'T' !in TimeConverter(time).value.unit && 'Z' !in TimeConverter(time).value.unit
    requires UnitsText(again) == Ok(TimeConverter(time).value.unitString)
    requires Calendar(again) == Calendar(time)
    ensures TimeConverter(again) == TimeConverter(time)
  {
    var c := TimeConverter(time).value;
    var word := Split(UnitsText(time).value)[0];
    assert c.unit == NormaliseUnit(word) && c.unitString == InitString(c.unit, c.origin) && c.calendar == Calendar(time);
    ConverterUnitWord(time);
    InitStringParts(c.unit, c.origin);
    DashedFirstParse(c.origin);
    UnitIdempotent(word);
    assert NormaliseUnit(Split(c.unitString)[0]) == c.unit;
  }

  /** Units '<unit> <word> <date> <time>' whose date and time, joined by 'T', a template writes for `d` have origin `d`. */
  lemma TemplateUnits(time: NcVariable, w: seq<string>, d: DateTime, k: nat)
    requires ValidDateTime(d) && k < |Templates| && |w| == 4
    requires forall i :: 0 <= i < 4 ==> IsWord(w[i]) && 'T' !in w[i] && 'Z' !in w[i]
    requires w[2] + "T" + w[3] == Render(d, Templates[k])
    requires UnitsText(time) == Ok(JoinWords(w))
    ensures TimeConverter(time) == Ok(Converter(NormaliseUnit(w[0]), InitString(NormaliseUnit(w[0]), d), d, Calendar(time)))
  {
    var units := JoinWords(w);
    FourWords(w);
    ReplaceAbsent(units, 'T', ' ');
    RemoveAbsent(units, 'Z');
    TemplateFirstParse(d, k);
  }

  lemma FourWords(w: seq<string>)
    requires |w| == 4
    requires forall i :: 0 <= i < 4 ==> IsWord(w[i]) && 'T' !in w[i] && 'Z' !in w[i]
    ensures Split(JoinWords(w)) == w
    ensures 'T' !in JoinWords(w) && 'Z' !in JoinWords(w)
  {
    SplitJoin(w);
    JoinFour(w[0], w[1], w[2], w[3]);
    assert w == [w[0], w[1], w[2], w[3]];
  }

  /** A date template `k` writes is read by template `k`, and by no other. */
  lemma TemplateFirstParse(d: DateTime, k: nat)
    requires ValidDateTime(d) && k < |Templates|
    ensures FirstParse(Render(d, Templates[k]), 0) == Some(d)
  {
    var s := Render(d, Templates[k]);
    TemplateRoundTrip(d, k);
    FirstParseSpec(s, 0);
    if FirstParse(s, 0).Some? {
      var j :| 0 <= j < |Templates| && Strptime(s, Templates[j]) == FirstParse(s, 0);
      AtMostOneTemplate(s, j, k);
    }
  }

  /** 'hours since 19500101 000000': hourly steps from 1950-01-01, written back as '1950-01-01 00-00-00'. */
  lemma CompactUnits(time: NcVariable)
    requires UnitsText(time) == Ok("hours since 19500101 000000")
    ensures TimeConverter(time).Ok?
    ensures TimeConverter(time).value.origin == DateTime(1950, 1, 1, 0, 0, 0)
    ensures TimeConverter(time).value.unitString == "hours since 1950-01-01 00-00-00"
    ensures TimeConverter(time).value.Units() == "hours"
  {
    var w := ["hours", "since", "19500101", "000000"];
    var d := DateTime(1950, 1, 1, 0, 0, 0);
    Hours1950Words();
    Hours1950Compact();
    TemplateUnits(time, w, d, 0);
    UnitWords();
    HoursUnit(d);
    HoursLower();
  }

  lemma HoursUnit(d: DateTime)
    requires d == DateTime(1950, 1, 1, 0, 0, 0)
    ensures InitString("hour", d) == "hours since 1950-01-01 00-00-00"
  {
    Date1950(d);
    Time1950(d);
    Hours1950Init(d);
  }

  lemma HoursLower()
    ensures Lower("hour" + "s") == "hours"
  {
    assert "hour" + "s" == "hours";
  }

  lemma Hours1950Words()
    ensures JoinWords(["hours", "since", "19500101", "000000"]) == "hours since 19500101 000000"
    ensures var w := ["hours", "since", "19500101", "000000"];
      forall i :: 0 <= i < 4 ==> IsWord(w[i]) && 'T' !in w[i] && 'Z' !in w[i]
  {
    Hours1950Join();
    assert IsWord("hours") && IsWord("since");
    assert IsWord("19500101") && IsWord("000000");
  }

  lemma Hours1950Join()
    ensures JoinWords(["hours", "since", "19500101", "000000"]) == "hours since 19500101 000000"
  { }

  lemma Hours1950Compact()
    ensures Render(DateTime(1950, 1, 1, 0, 0, 0), Templates[0]) == "19500101" + "T" + "000000"
  {
    assert Templates[0] == Compact;
    assert Render(DateTime(1950, 1, 1, 0, 0, 0), Compact) == "19500101T000000";
  }

  lemma Hours1950Init(d: DateTime)
    requires ValidDateTime(d) && Render(d, DatePart) == "1950-01-01" && Render(d, TimePart) == "00-00-00"
    ensures InitString("hour", d) == "hours since 1950-01-01 00-00-00"
  {
    InitStringHalves("hour", d);
  }

  /** The converter's unit string is its unit, 'since', and the two halves of its origin. */
  lemma InitStringHalves(unit: string, d: DateTime)
    requires ValidDateTime(d)
    ensures InitString(unit, d) == unit + "s since " + Render(d, DatePart) + " " + Render(d, TimePart)
  {
    assert InitFormat == DatePart + ([Lit(' ')] + TimePart);
    RenderAppend(d, DatePart, [Lit(' ')] + TimePart);
    RenderAppend(d, [Lit(' ')], TimePart);
    assert Render(d, [Lit(' ')]) == " ";
  }

  lemma Date1950(d: DateTime)
    requires d == DateTime(1950, 1, 1, 0, 0, 0)
    ensures Render(d, DatePart) == "1950-01-01"
  { }

  lemma Time1950(d: DateTime)
    requires d == DateTime(1950, 1, 1, 0, 0, 0)
    ensures Render(d, TimePart) == "00-00-00"
  { }

  /** No template reads a string whose separators are not some template's literals. */
  lemma NoTemplateReads(date: string)
    requires forall k :: 0 <= k < |TemplateLiterals| ==> Separators(date) != TemplateLiterals[k]
    ensures forall k :: 0 <= k < |Templates| ==> Strptime(date, Templates[k]).None?
  {
    forall k | 0 <= k < |Templates| ensures Strptime(date, Templates[k]).None? {
      TemplateShape(k);
      StrptimeSeparators(date, Templates[k]);
    }
  }

  /** Units of four words whose third and fourth, joined by 'T', have separators no template has are refused with ValueError. */
  lemma UnknownFormatUnits(time: NcVariable, w: seq<string>)
    requires |w| == 4
    requires forall i :: 0 <= i < 4 ==> IsWord(w[i]) && 'T' !in w[i] && 'Z' !in w[i]
    requires forall k :: 0 <= k < |TemplateLiterals| ==> Separators(w[2] + "T" + w[3]) != TemplateLiterals[k]
    requires UnitsText(time) == Ok(JoinWords(w))
    ensures TimeConverter(time) == Fail(ValueError("Unknown format of time in " + JoinWords(w)))
  {
    var units := JoinWords(w);
    FourWords(w);
    ReplaceAbsent(units, 'T', ' ');
    RemoveAbsent(units, 'Z');
    NoTemplateReads(w[2] + "T" + w[3]);
    FirstParseSpec(w[2] + "T" + w[3], 0);
  }

  /** 'bla bla bla bla' has four words, but 'blaTbla' is no date: ValueError. */
  lemma NoDateUnits(time: NcVariable)
    requires UnitsText(time) == Ok("bla bla bla bla")
    ensures TimeConverter(time).Fail? && TimeConverter(time).error.ValueError?
  {
    BlaWords();
    BlaSeparators();
    UnknownFormatUnits(time, ["bla", "bla", "bla", "bla"]);
  }

  lemma BlaWords()
    ensures JoinWords(["bla", "bla", "bla", "bla"]) == "bla bla bla bla"
    ensures IsWord("bla") && 'T' !in "bla" && 'Z' !in "bla"
  { }

  lemma BlaSeparators()
    ensures Separators("bla" + "T" + "bla") == "blatbla"
    ensures forall k :: 0 <= k < |TemplateLiterals| ==> "blatbla" != TemplateLiterals[k]
  {
    SeparatorsAppend("bla" + "T", "bla");
    SeparatorsAppend("bla", "T");
    BlaLetters();
    assert Separators("T") == "t";
  }

  lemma BlaLetters()
    ensures Separators("bla") == "bla"
  {
    assert "bla"[1..] == "la" && "la"[1..] == "a" && "a"[1..] == [];
    assert Separators("a") == "a";
    assert Separators("la") == "la";
  }
}
