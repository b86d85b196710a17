/**
 * The date helpers of the event showcase: `parseDate`, `formatDateBR`,
 * `calculateDuration` and `isWeekendEvent`.
 */
module ShowcaseDates {
  import opened Wrappers
  import opened JsNumber
  import opened JsString
  import opened Calendar
  import opened JsDate

  /** parseDate's table of full Portuguese month names, to 0-based month indices. */
  const MonthTable: map<string, int> := map[
    "janeiro" := 0, "fevereiro" := 1, "março" := 2, "abril" := 3,
    "maio" := 4, "junho" := 5, "julho" := 6, "agosto" := 7,
    "setembro" := 8, "outubro" := 9, "novembro" := 10, "dezembro" := 11]

  /** formatDateBR's abbreviated month names, by 0-based month index. */
  const MonthAbbreviations: seq<string> :=
    ["jan", "fev", "mar", "abr", "mai", "jun", "jul", "ago", "set", "out", "nov", "dez"]

  /**
   * parseDate with a given month table: the empty string is "now"; a string
   * with a hyphen goes to the Date constructor; one that, lower-cased, splits
   * on " de " into three pieces is read as day, month name and year; any
   * other string goes to the Date constructor too. A month name missing
   * from the table makes the three-piece form an Invalid Date.
   */
  function ParseDateWith(s: string, env: DateEnv, months: map<string, int>): (r: Instant)
    ensures s == "" ==> r == At(env.today)
    ensures var parts := Split(Lower(s), " de ");
      s != "" && !Includes(s, "-") && |parts| == 3 && parts[1] !in months ==> r == Invalid
    ensures var parts := Split(Lower(s), " de ");
      s != "" && !Includes(s, "-") && |parts| == 3 && r.At? ==>
        parts[1] in months && ParseInt(parts[0]).Num? && ParseInt(parts[2]).Num?
  {
    if s == "" then At(env.today)
    else if Includes(s, "-") then DateConstructor(s, env)
    else
      var parts := Split(Lower(s), " de ");
      if |parts| == 3 then
        var month := if parts[1] in months then Num(months[parts[1]]) else NaN;
        DateFromParts(ParseInt(parts[2]), month, ParseInt(parts[0]))
      else DateConstructor(s, env)
  }

  /** parseDate as the showcase defines it. */
  function ParseDate(s: string, env: DateEnv): Instant
  {
    ParseDateWith(s, env, MonthTable)
  }

  /** formatDateBR: "<day> de <abbr>. de <year>", and "NaN de undefined. de NaN" for an Invalid Date. */
  function FormatDateBR(t: Instant): (r: string)
    ensures t.Invalid? ==> r == "NaN de undefined. de NaN"
  {
    var day := GetDate(t);
    var month := GetMonth(t);
    var year := GetFullYear(t);
    NumberText(day) + " de " + (if month.Num? then MonthAbbreviations[month.n] else "undefined")
    + ". de " + NumberText(year)
  }

  /**
   * calculateDuration: 1 without an end date; otherwise the whole number of
   * days between the two parsed dates, plus one. Both are midnights, so the
   * source's Math.ceil of the day difference is the difference itself.
   */
  function CalculateDuration(start: string, end: Option<string>, env: DateEnv): (r: Number)
    ensures r.Num? ==> r.n >= 1
    ensures (end.None? || end.value == "") ==> r == Num(1)
  {
    if end.None? || end.value == "" then Num(1)
    else
      match Minus(ParseDate(end.value, env), ParseDate(start, env))
      case NaN => NaN
      case Num(d) => Num((if d < 0 then -d else d) + 1)
  }

  /** isWeekendEvent: the parsed date falls on a Sunday (0) or a Saturday (6). */
  function IsWeekendEvent(s: string, env: DateEnv): (b: bool)
    ensures b <==> ParseDate(s, env).At? && WeekDay(ParseDate(s, env).day) in {0, 6}
  {
    var d := GetDay(ParseDate(s, env));
    d == Num(0) || d == Num(6)
  }

  /** The empty string is the host's "now"; a string with a hyphen, or one not in three pieces, is left to the Date constructor. */
  lemma ParseDateBranches(s: string, env: DateEnv)
    ensures s == "" ==> ParseDate(s, env) == At(env.today)
    ensures s != "" && Includes(s, "-") ==> ParseDate(s, env) == DateConstructor(s, env)
    ensures s != "" && !Includes(s, "-") && |Split(Lower(s), " de ")| != 3 ==> ParseDate(s, env) == DateConstructor(s, env)
  {
  }

  // ---------------------------------------------------------------------
  // The long Portuguese form

  lemma LowerConcat(a: string, b: string)
    ensures Lower(a + b) == Lower(a) + Lower(b)
  {
  }

  lemma NumeralChars(n: nat)
    ensures forall i :: 0 <= i < |NatToString(n)| ==>
      NatToString(n)[i] != ' ' && NatToString(n)[i] != '-' && LowerChar(NatToString(n)[i]) == NatToString(n)[i]
  {
  }

  /** The keys of parseDate's table contain no space and no hyphen. */
  lemma MonthKeyChars(name: string)
    requires name in MonthTable
    ensures forall i :: 0 <= i < |name| ==> name[i] != ' ' && name[i] != '-'
  {
  }

  /** A character that lower-cases to a space or a hyphen is that character. */
  lemma LowerCharFixed(c: char)
    ensures LowerChar(c) == ' ' ==> c == ' '
    ensures LowerChar(c) == '-' ==> c == '-'
  {
  }

  /**
   * A non-empty string without a hyphen that, lower-cased, splits on " de "
   * into three pieces is read as `new Date(year, month, day)` from the third
   * piece, the table's index of the second and the first.
   */
  lemma ParseThreePieces(s: string, env: DateEnv, months: map<string, int>, p0: string, p1: string, p2: string)
    requires s != "" && !Includes(s, "-") && Split(Lower(s), " de ") == [p0, p1, p2]
    ensures ParseDateWith(s, env, months)
            == DateFromParts(ParseInt(p2), if p1 in months then Num(months[p1]) else NaN, ParseInt(p0))
  {
  }

  /** `new Date(y, m - 1, d)` of a valid date from year 100 on, in range, is that day. */
  lemma DateFromCivil(c: Civil)
    requires ValidCivil(c) && c.year >= 100 && -MaxDays <= DaysOf(c) <= MaxDays
    ensures DateFromParts(Num(c.year), Num(c.month - 1), Num(c.day)) == At(DaysOf(c))
  {
    MakeDayOfCivil(c);
  }

  /** Three pieces free of spaces, joined by " de ", split back into those three pieces. */
  lemma SplitThree(a: string, b: string, c: string)
    requires forall i :: 0 <= i < |a| ==> a[i] != ' '
    requires forall i :: 0 <= i < |b| ==> b[i] != ' '
    requires forall i :: 0 <= i < |c| ==> c[i] != ' '
    ensures Split(a + " de " + b + " de " + c, " de ") == [a, b, c]
  {
    assert a + " de " + b + " de " + c == a + " de " + (b + " de " + c);
    SplitAfterFirst(a, " de ", b + " de " + c);
    SplitAfterFirst(b, " de ", c);
    NotIncludes(c, " de ");
    SplitNone(c, " de ");
  }

  /** Lower-casing "<d> de <name> de <y>" lower-cases only the name. */
  lemma LowerLongForm(d: nat, name: string, y: nat)
    ensures Lower(NatToString(d) + " de " + name + " de " + NatToString(y))
            == NatToString(d) + " de " + Lower(name) + " de " + NatToString(y)
  {
    var D, Y := NatToString(d), NatToString(y);
    NumeralChars(d);
    NumeralChars(y);
    LowerConcat(D + " de " + name + " de ", Y);
    LowerConcat(D + " de " + name, " de ");
    LowerConcat(D + " de ", name);
    LowerConcat(D, " de ");
    LowerIdentity(D);
    LowerIdentity(Y);
    LowerIdentity(" de ");
  }

  /** A name that lower-cases to a key of the table has no space and no hyphen. */
  lemma MonthNameChars(name: string)
    requires Lower(name) in MonthTable
    ensures forall i :: 0 <= i < |name| ==> name[i] != ' ' && name[i] != '-'
  {
    MonthKeyChars(Lower(name));
    forall i | 0 <= i < |name|
      ensures name[i] != ' ' && name[i] != '-'
    {
      LowerCharFixed(name[i]);
      assert Lower(name)[i] == LowerChar(name[i]);
    }
  }

  /** The long form contains no hyphen. */
  lemma LongFormNoHyphen(d: nat, name: string, y: nat)
    requires Lower(name) in MonthTable
    ensures !Includes(NatToString(d) + " de " + name + " de " + NatToString(y), "-")
  {
    var s := NatToString(d) + " de " + name + " de " + NatToString(y);
    NumeralChars(d);
    NumeralChars(y);
    MonthNameChars(name);
    assert forall i :: 0 <= i < |s| ==> s[i] != '-';
    NotIncludes(s, "-");
  }

  /** The long form, lower-cased, splits into the day numeral, the month key and the year numeral. */
  lemma LongFormSplit(d: nat, name: string, y: nat)
    requires Lower(name) in MonthTable
    ensures Split(Lower(NatToString(d) + " de " + name + " de " + NatToString(y)), " de ")
            == [NatToString(d), Lower(name), NatToString(y)]
  {
    NumeralChars(d);
    NumeralChars(y);
    MonthKeyChars(Lower(name));
    LowerLongForm(d, name, y);
    SplitThree(NatToString(d), Lower(name), NatToString(y));
  }

  /**
   * "<d> de <Month> de <y>", with a month name that lower-cases to a key of
   * the table, parses to day d of that month of year y (for years from 100 on,
   * where `new Date` takes the year as given).
   */
  lemma ParseLongForm(d: nat, name: string, y: nat, env: DateEnv)
    requires Lower(name) in MonthTable && y >= 100
    requires ValidCivil(Civil(y, MonthTable[Lower(name)] + 1, d))
    requires -MaxDays <= DaysFromCivil(y, MonthTable[Lower(name)] + 1, d) <= MaxDays
    ensures ParseDate(NatToString(d) + " de " + name + " de " + NatToString(y), env)
            == At(DaysFromCivil(y, MonthTable[Lower(name)] + 1, d))
  {
    var D, Y, key := NatToString(d), NatToString(y), Lower(name);
    var s := D + " de " + name + " de " + Y;
    LongFormNoHyphen(d, name, y);
    LongFormSplit(d, name, y);
    ParseThreePieces(s, env, MonthTable, D, key, Y);
    ParseIntOfNatToString(d);
    ParseIntOfNatToString(y);
    DateFromCivil(Civil(y, MonthTable[key] + 1, d));
  }

  /** The example of the long form: "8 de agosto de 2025" is 2025-08-08. */
  lemma ParseLongFormExample(env: DateEnv)
    ensures ParseDate("8 de agosto de 2025", env) == At(DaysFromCivil(2025, 8, 8))
  {
    assert NatToString(2025) == "2025" by {
      assert NatToString(2) == "2";
      assert NatToString(20) == "20";
      assert NatToString(202) == "202";
    }
    assert Lower("agosto") == "agosto";
    assert NatToString(8) + " de " + "agosto" + " de " + NatToString(2025) == "8 de agosto de 2025";
    ParseLongForm(8, "agosto", 2025, env);
  }

  // ---------------------------------------------------------------------
  // Re-reading formatDateBR's output

  /** The months parseDate would need to read formatDateBR's output: the table plus "<abbr>.". */
  const AbbreviationTable: map<string, int> := map[
    "jan." := 0, "fev." := 1, "mar." := 2, "abr." := 3, "mai." := 4, "jun." := 5,
    "jul." := 6, "ago." := 7, "set." := 8, "out." := 9, "nov." := 10, "dez." := 11]

  const IntendedMonthTable: map<string, int> := MonthTable + AbbreviationTable

  /** parseDate with a month table that also knows formatDateBR's abbreviations. */
  function ParseDateIntended(s: string, env: DateEnv): Instant
  {
    ParseDateWith(s, env, IntendedMonthTable)
  }

  /** No full month name has a dot as its fourth character. */
  lemma MonthNamesUndotted(k: string)
    requires k in MonthTable
    ensures |k| >= 4 && k[3] != '.'
  {
  }

  lemma AbbreviationListed(i: int)
    requires 0 <= i < 12
    ensures |MonthAbbreviations[i]| == 3
    ensures forall j :: 0 <= j < 3 ==> 'a' <= MonthAbbreviations[i][j] <= 'z'
    ensures MonthAbbreviations[i] + "." in AbbreviationTable
    ensures AbbreviationTable[MonthAbbreviations[i] + "."] == i
  {
    var a := MonthAbbreviations[i] + ".";
    match i
    case 0 => assert a == "jan.";
    case 1 => assert a == "fev.";
    case 2 => assert a == "mar.";
    case 3 => assert a == "abr.";
    case 4 => assert a == "mai.";
    case 5 => assert a == "jun.";
    case 6 => assert a == "jul.";
    case 7 => assert a == "ago.";
    case 8 => assert a == "set.";
    case 9 => assert a == "out.";
    case 10 => assert a == "nov.";
    case 11 => assert a == "dez.";
  }

  /** Each abbreviation is three lower-case letters; with its dot it is in the abbreviation table and not in parseDate's. */
  lemma AbbreviationChars(i: int)
    requires 0 <= i < 12
    ensures forall j :: 0 <= j < |MonthAbbreviations[i]| ==> 'a' <= MonthAbbreviations[i][j] <= 'z'
    ensures MonthAbbreviations[i] + "." in AbbreviationTable
    ensures AbbreviationTable[MonthAbbreviations[i] + "."] == i
    ensures MonthAbbreviations[i] + "." !in MonthTable
  {
    AbbreviationListed(i);
    var a := MonthAbbreviations[i] + ".";
    assert a[3] == '.';
    if a in MonthTable {
      MonthNamesUndotted(a);
    }
  }

  /** Characters that are neither hyphens nor changed by lower-casing. */
  ghost predicate LowerAndNoHyphen(s: string)
  {
    forall i :: 0 <= i < |s| ==> s[i] != '-' && LowerChar(s[i]) == s[i]
  }

  lemma LowerAndNoHyphenConcat(a: string, b: string)
    requires LowerAndNoHyphen(a) && LowerAndNoHyphen(b)
    ensures LowerAndNoHyphen(a + b)
  {
  }

  /** formatDateBR of a valid date, piece by piece. */
  lemma FormatText(z: TimeDay)
    ensures var c := CivilFromDays(z);
            FormatDateBR(At(z)) == NatToString(c.day) + " de " + (MonthAbbreviations[c.month - 1] + ".")
                                   + " de " + IntToString(c.year)
  {
    var c := CivilFromDays(z);
    assert CivilOf(At(z)) == c;
    var D, A, Y := NatToString(c.day), MonthAbbreviations[c.month - 1], IntToString(c.year);
    assert NumberText(GetDate(At(z))) == D;
    assert GetMonth(At(z)) == Num(c.month - 1);
    assert NumberText(GetFullYear(At(z))) == Y;
    assert FormatDateBR(At(z)) == D + " de " + A + ". de " + Y;
    assert D + " de " + A + ". de " + Y == D + " de " + (A + ".") + " de " + Y;
  }

  /**
   * From year 0 on, formatDateBR's output is a non-empty string without a
   * hyphen that is its own lower case and splits on " de " into the day's
   * numeral, the abbreviation with its dot, and the year's numeral.
   */
  lemma FormatPieces(z: TimeDay)
    requires CivilFromDays(z).year >= 0
    ensures var c := CivilFromDays(z);
            var s := FormatDateBR(At(z));
            s != "" && !Includes(s, "-")
            && Split(Lower(s), " de ")
               == [NatToString(c.day), MonthAbbreviations[c.month - 1] + ".", NatToString(c.year)]
  {
    var c := CivilFromDays(z);
    var D, A, Y := NatToString(c.day), MonthAbbreviations[c.month - 1] + ".", NatToString(c.year);
    var s := FormatDateBR(At(z));
    FormatText(z);
    NumeralChars(c.day);
    NumeralChars(c.year);
    AbbreviationChars(c.month - 1);
    assert LowerAndNoHyphen(D) && LowerAndNoHyphen(A) && LowerAndNoHyphen(Y);
    assert LowerAndNoHyphen(" de ");
    LowerAndNoHyphenConcat(D, " de ");
    LowerAndNoHyphenConcat(D + " de ", A);
    LowerAndNoHyphenConcat(D + " de " + A, " de ");
    LowerAndNoHyphenConcat(D + " de " + A + " de ", Y);
    NotIncludes(s, "-");
    LowerIdentity(s);
    assert forall i :: 0 <= i < |A| ==> A[i] != ' ';
    SplitThree(D, A, Y);
  }

  /**
   * parseDate does not read back what formatDateBR writes: from year 0 on,
   * the abbreviated month is not in its table, so the result is an Invalid Date.
   */
  lemma FormatNotReparsed(z: TimeDay, env: DateEnv)
    requires CivilFromDays(z).year >= 0
    ensures ParseDate(FormatDateBR(At(z)), env) == Invalid
  {
    var c := CivilFromDays(z);
    FormatPieces(z);
    AbbreviationChars(c.month - 1);
    ParseThreePieces(FormatDateBR(At(z)), env, MonthTable,
      NatToString(c.day), MonthAbbreviations[c.month - 1] + ".", NatToString(c.year));
  }

  /** With the abbreviations in its table, parseDate does read formatDateBR's output back (from year 100 on). */
  lemma IntendedRoundTrip(z: TimeDay, env: DateEnv)
    requires CivilFromDays(z).year >= 100
    ensures ParseDateIntended(FormatDateBR(At(z)), env) == At(z)
  {
    var c := CivilFromDays(z);
    FormatPieces(z);
    AbbreviationChars(c.month - 1);
    assert IntendedMonthTable[MonthAbbreviations[c.month - 1] + "."] == c.month - 1;
    ParseThreePieces(FormatDateBR(At(z)), env, IntendedMonthTable,
      NatToString(c.day), MonthAbbreviations[c.month - 1] + ".", NatToString(c.year));
    ParseIntOfNatToString(c.day);
    ParseIntOfNatToString(c.year);
    DateFromCivil(c);
  }

  // ---------------------------------------------------------------------
  // Duration and weekday

  /** The duration does not depend on which of two non-empty date strings is the start. */
  lemma DurationSymmetric(a: string, b: string, env: DateEnv)
    requires a != "" && b != ""
    ensures CalculateDuration(a, Some(b), env) == CalculateDuration(b, Some(a), env)
  {
  }

  /** A one-day event: the same valid date as start and end lasts 1 day; an invalid one has no duration. */
  lemma DurationSameDay(a: string, env: DateEnv)
    requires a != ""
    ensures CalculateDuration(a, Some(a), env) == if ParseDate(a, env).At? then Num(1) else NaN
  {
  }

  /** The duration of two valid dates is the inclusive count of calendar days from the earlier to the later. */
  lemma DurationCountsDays(a: string, b: string, env: DateEnv)
    requires b != "" && ParseDate(a, env).At? && ParseDate(b, env).At?
    requires ParseDate(a, env).day <= ParseDate(b, env).day
    ensures CalculateDuration(a, Some(b), env) == Num(ParseDate(b, env).day - ParseDate(a, env).day + 1)
  {
  }

  /** A YYYY-MM-DD string with a real calendar date goes down the ISO branch and denotes that day. */
  lemma ParseIsoForm(y: string, m: string, d: string, env: DateEnv)
    requires |y| == 4 && |m| == 2 && |d| == 2 && AllDigits(y) && AllDigits(m) && AllDigits(d)
    requires 1 <= Decimal(m) <= 12 && 1 <= Decimal(d) <= DaysInMonth(Decimal(y), Decimal(m))
    ensures ParseDate(y + "-" + m + "-" + d, env) == TimeClip(DaysFromCivil(Decimal(y), Decimal(m), Decimal(d)))
  {
    var s := y + "-" + m + "-" + d;
    assert OccursAt(s, "-", 4);
    IsoDayForm(y, m, d, env);
  }

  /** A day of September 2025 written "2025-09-DD" parses to that day. */
  lemma IsoSeptember2025(d: string, env: DateEnv)
    requires |d| == 2 && AllDigits(d) && 1 <= Decimal(d) <= 30
    ensures ParseDate("2025-09-" + d, env) == At(DaysFromCivil(2025, 9, Decimal(d)))
  {
    DecimalExamples();
    assert "2025-09-" + d == "2025" + "-" + "09" + "-" + d;
    assert AllDigits("2025") && AllDigits("09");
    assert DaysInMonth(2025, 9) == 30;
    assert DaysBeforeYear(2025) == 739617;
    assert DaysFromCivil(2025, 9, Decimal(d)) == 20331 + Decimal(d);
    ParseIsoForm("2025", "09", d, env);
  }

  lemma IsoExamples(env: DateEnv)
    ensures ParseDate("2025-09-01", env) == At(DaysFromCivil(2025, 9, 1))
    ensures ParseDate("2025-09-03", env) == At(DaysFromCivil(2025, 9, 3))
    ensures ParseDate("2025-09-06", env) == At(DaysFromCivil(2025, 9, 6))
  {
    DecimalExamples();
    assert "2025-09-01" == "2025-09-" + "01";
    assert "2025-09-03" == "2025-09-" + "03";
    assert "2025-09-06" == "2025-09-" + "06";
    IsoSeptember2025("01", env);
    IsoSeptember2025("03", env);
    IsoSeptember2025("06", env);
  }

  /** An event from 2025-09-01 to 2025-09-03 lasts 3 days. */
  lemma DurationExample(env: DateEnv)
    ensures CalculateDuration("2025-09-01", Some("2025-09-03"), env) == Num(3)
  {
    IsoExamples(env);
  }

  /** 2025-09-06 was a Saturday, so an event starting then is a weekend event. */
  lemma WeekendExample(env: DateEnv)
    ensures IsWeekendEvent("2025-09-06", env)
  {
    IsoExamples(env);
    SaturdayExample();
  }

  lemma SaturdayExample()
    ensures DaysFromCivil(2025, 9, 6) == 20337 && WeekDay(20337) == 6
  {
    assert DaysBeforeYear(2025) == 739617;
    assert DaysBeforeMonth(2025, 9) == 243;
  }

  /** A string that does not parse never counts as a weekend event. */
  lemma InvalidNotWeekend(s: string, env: DateEnv)
    requires ParseDate(s, env).Invalid?
    ensures !IsWeekendEvent(s, env)
  {
  }
}
