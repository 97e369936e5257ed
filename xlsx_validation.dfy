/**
 * The metadata spreadsheet validator's own checks: duplicate analysis aliases,
 * the same-set checks between worksheets, required groups of fields, and the
 * collection date format.  Each check appends messages to the validator's error
 * list; a message is modelled as the values it reports rather than as text.
 */
module XlsxValidation {
  import opened Wrappers
  import opened Text
  import opened XlsxParser
  import opened XlsxParserEva

  /** One appended message, by the values it reports. */
  datatype ValidationError =
    | AliasRepeated(alias: Cell, count: nat)
    | SetMismatch(desc1: string, desc2: string, onlyIn1: seq<string>, onlyIn2: seq<string>)
    | FieldGroupMissing(sheet: string, rowNum: Cell, groups: seq<seq<string>>, values: seq<seq<Cell>>)
    | DateMissing(rowNum: Cell, key: string)
    | NotADate(rowNum: Cell, key: string, value: Cell)

  // ---------------------------------------------------------------------
  // str() of a cell

  function ZeroPadded(n: int, width: nat): string
  {
    if n < 0 then IntToString(n)
    else
      var digits := NatToString(n);
      (if |digits| < width then seq(width - |digits|, _ => '0') else []) + digits
  }

  /** Python's `str()` of a cell value; a date cell prints as a datetime at midnight. */
  function PyStr(c: Cell): string
  {
    match c
    case NoValue => "None"
    case Str(s) => s
    case Int(i) => IntToString(i)
    case DateTime(y, m, d) => ZeroPadded(y, 4) + "-" + ZeroPadded(m, 2) + "-" + ZeroPadded(d, 2) + " 00:00:00"
  }

  function Texts(cells: seq<Cell>): (r: seq<string>)
    ensures |r| == |cells| && forall i :: 0 <= i < |cells| ==> r[i] == PyStr(cells[i])
  {
    if cells == [] then [] else [PyStr(cells[0])] + Texts(cells[1..])
  }

  // ---------------------------------------------------------------------
  // same_set

  function Without(xs: seq<Cell>, ys: seq<Cell>): (r: seq<Cell>)
    ensures forall x :: x in r <==> x in xs && x !in ys
  {
    if xs == [] then []
    else (if xs[0] in ys then [] else [xs[0]]) + Without(xs[1..], ys)
  }

  /** The distinct values of `xs` missing from `ys`. */
  function OnlyIn(xs: seq<Cell>, ys: seq<Cell>): (r: seq<Cell>)
    ensures forall x :: x in r <==> x in xs && x !in ys
    ensures forall i, j :: 0 <= i < j < |r| ==> r[i] != r[j]
  {
    Dedup(Without(xs, ys))
  }

  function SetOf(xs: seq<Cell>): set<Cell>
  {
    set x | x in xs
  }

  /**
   * `same_set`: nothing when both lists hold the same values; otherwise one
   * message listing, sorted as text, the values of each list missing from the
   * other.
   */
  function SameSetErrors(list1: seq<Cell>, list2: seq<Cell>, desc1: string, desc2: string): seq<ValidationError>
  {
    if SetOf(list1) == SetOf(list2) then []
    else [SetMismatch(desc1, desc2, SortStrings(Texts(OnlyIn(list1, list2))), SortStrings(Texts(OnlyIn(list2, list1))))]
  }

  /**
   * No message exactly when the lists hold the same values; a message lists
   * each side's missing values as sorted text, and at least one side is
   * non-empty.
   */
  lemma SameSetErrorsMeaning(list1: seq<Cell>, list2: seq<Cell>, desc1: string, desc2: string)
    ensures SameSetErrors(list1, list2, desc1, desc2) == [] <==> SetOf(list1) == SetOf(list2)
    ensures SetOf(list1) != SetOf(list2) ==>
      var e := SameSetErrors(list1, list2, desc1, desc2)[0];
      Sorted(e.onlyIn1) && multiset(e.onlyIn1) == multiset(Texts(OnlyIn(list1, list2))) &&
      Sorted(e.onlyIn2) && multiset(e.onlyIn2) == multiset(Texts(OnlyIn(list2, list1))) &&
      (e.onlyIn1 != [] || e.onlyIn2 != [])
  {
    if SetOf(list1) != SetOf(list2) {
      var e := SameSetErrors(list1, list2, desc1, desc2)[0];
      if exists x :: x in list1 && x !in list2 {
        var x :| x in list1 && x !in list2;
        assert x in OnlyIn(list1, list2);
        assert |Texts(OnlyIn(list1, list2))| > 0;
        assert |multiset(e.onlyIn1)| > 0;
      } else {
        var x :| x in list2 && x !in list1;
        assert x in OnlyIn(list2, list1);
        assert |Texts(OnlyIn(list2, list1))| > 0;
        assert |multiset(e.onlyIn2)| > 0;
      }
    }
  }

  // ---------------------------------------------------------------------
  // Duplicate analysis aliases

  /** One message per alias occurring more than once, in first-occurrence order, with its count. */
  function RepeatErrors(aliases: seq<Cell>, keys: seq<Cell>): seq<ValidationError>
  {
    if keys == [] then []
    else
      var rest := RepeatErrors(aliases, keys[..|keys| - 1]);
      var a := keys[|keys| - 1];
      if multiset(aliases)[a] > 1 then rest + [AliasRepeated(a, multiset(aliases)[a])] else rest
  }

  function DuplicateAliasErrors(aliases: seq<Cell>): seq<ValidationError>
  {
    RepeatErrors(aliases, Dedup(aliases))
  }

  lemma {:induction false} RepeatErrorsMembers(aliases: seq<Cell>, keys: seq<Cell>, a: Cell, n: nat)
    ensures AliasRepeated(a, n) in RepeatErrors(aliases, keys) <==> a in keys && n == multiset(aliases)[a] && n > 1
  {
    if keys != [] {
      var init := keys[..|keys| - 1];
      RepeatErrorsMembers(aliases, init, a, n);
      assert keys == init + [keys[|keys| - 1]];
    }
  }

  lemma {:induction false} RepeatErrorsEmpty(aliases: seq<Cell>, keys: seq<Cell>)
    ensures RepeatErrors(aliases, keys) == [] <==> forall a :: a in keys ==> multiset(aliases)[a] <= 1
  {
    if keys != [] {
      var init := keys[..|keys| - 1];
      RepeatErrorsEmpty(aliases, init);
      assert keys == init + [keys[|keys| - 1]];
    }
  }

  /** A value counted more than once occurs at two positions, and conversely. */
  lemma {:induction false} CountAboveOne(xs: seq<Cell>, a: Cell)
    ensures multiset(xs)[a] > 1 <==> exists i, j :: 0 <= i < j < |xs| && xs[i] == a && xs[j] == a
  {
    if xs != [] {
      var init := xs[..|xs| - 1];
      var last := xs[|xs| - 1];
      assert xs == init + [last];
      CountAboveOne(init, a);
      if multiset(xs)[a] > 1 && last == a && multiset(init)[a] == 1 {
        assert a in multiset(init);
        var i :| 0 <= i < |init| && init[i] == a;
        assert xs[i] == a && xs[|xs| - 1] == a;
      }
      if exists i, j :: 0 <= i < j < |xs| && xs[i] == a && xs[j] == a {
        var i, j :| 0 <= i < j < |xs| && xs[i] == a && xs[j] == a;
        if j < |xs| - 1 {
          assert init[i] == a && init[j] == a;
        } else {
          assert init[i] == a;
          assert a in multiset(init);
        }
      }
    }
  }

  /**
   * An alias is reported exactly when it occurs more than once, with its count;
   * nothing is reported exactly when the aliases are distinct.
   */
  lemma DuplicateAliasErrorsMeaning(aliases: seq<Cell>, a: Cell, n: nat)
    ensures AliasRepeated(a, n) in DuplicateAliasErrors(aliases) <==> n == multiset(aliases)[a] && n > 1
    ensures DuplicateAliasErrors(aliases) == [] <==> forall i, j :: 0 <= i < j < |aliases| ==> aliases[i] != aliases[j]
  {
    RepeatErrorsMembers(aliases, Dedup(aliases), a, n);
    RepeatErrorsEmpty(aliases, Dedup(aliases));
    if DuplicateAliasErrors(aliases) == [] {
      forall i, j | 0 <= i < j < |aliases| ensures aliases[i] != aliases[j] {
        CountAboveOne(aliases, aliases[i]);
      }
    } else {
      var b :| b in Dedup(aliases) && multiset(aliases)[b] > 1;
      CountAboveOne(aliases, b);
    }
  }

  // ---------------------------------------------------------------------
  // group_of_fields_required

  /** Every field of the group has a truthy value. */
  predicate GroupFilled(row: Row, group: seq<string>)
  {
    forall k :: k in group ==> CellTruthy(Get(row, k))
  }

  function GroupValues(row: Row, groups: seq<seq<string>>): (r: seq<seq<Cell>>)
    ensures |r| == |groups|
  {
    if groups == [] then []
    else [seq(|groups[0]|, j requires 0 <= j < |groups[0]| => Get(row, groups[0][j]))] + GroupValues(row, groups[1..])
  }

  /**
   * `group_of_fields_required`: no message when some group is all filled;
   * otherwise one message, whose text reads every field of every group from
   * the row, raising KeyError for a field the row lacks.
   */
  function FieldGroupErrors(sheet: string, row: Row, groups: seq<seq<string>>): (r: Result<seq<ValidationError>>)
    ensures r == Ok([]) <==> SomeGroupFilled(row, groups)
    ensures r.Err? <==> !SomeGroupFilled(row, groups) && SomeFieldAbsent(row, groups)
  {
    if SomeGroupFilled(row, groups) then Ok([])
    else if SomeFieldAbsent(row, groups) then Err("KeyError")
    else Ok([FieldGroupMissing(sheet, Get(row, "row_num"), groups, GroupValues(row, groups))])
  }

  predicate SomeGroupFilled(row: Row, groups: seq<seq<string>>)
  {
    exists g :: g in groups && GroupFilled(row, g)
  }

  /** A field named by some group is not a key of the row. */
  predicate SomeFieldAbsent(row: Row, groups: seq<seq<string>>)
  {
    exists g, k :: g in groups && k in g && k !in row
  }

  // ---------------------------------------------------------------------
  // Dates

  predicate MonthField(s: string)
  {
    (|s| == 1 && '1' <= s[0] <= '9') ||
    (|s| == 2 && ((s[0] == '0' && '1' <= s[1] <= '9') || (s[0] == '1' && '0' <= s[1] <= '2')))
  }

  /** The day forms a `%d` directive accepts, a space-padded single digit included. */
  predicate DayField(s: string)
  {
    (|s| == 1 && '1' <= s[0] <= '9') ||
    (|s| == 2 && ((s[0] == '3' && (s[1] == '0' || s[1] == '1')) ||
                  ((s[0] == '1' || s[0] == '2') && IsDigit(s[1])) ||
                  (s[0] == '0' && '1' <= s[1] <= '9') ||
                  (s[0] == ' ' && '1' <= s[1] <= '9')))
  }

  function MonthValue(s: string): int
    requires MonthField(s)
  {
    DigitsValue(s)
  }

  function DayValue(s: string): int
    requires DayField(s)
  {
    if s[0] == ' ' then DigitValue(s[1]) else DigitsValue(s)
  }

  /** A four-digit year the calendar accepts (year 0 is out of range). */
  predicate YearField(s: string)
  {
    |s| == 4 && AllDigits(s) && DigitsValue(s) >= 1
  }

  predicate LeapYear(y: int)
  {
    y % 4 == 0 && (y % 100 != 0 || y % 400 == 0)
  }

  function DaysIn(y: int, m: int): int
  {
    if m == 2 then (if LeapYear(y) then 29 else 28)
    else if m == 4 || m == 6 || m == 9 || m == 11 then 30
    else 31
  }

  /** Month and day after `YYYY-`, the month being one or two characters long. */
  predicate MonthDay(year: int, t: string)
  {
    (|t| >= 3 && t[1] == '-' && MonthField(t[..1]) && DayField(t[2..]) && DayValue(t[2..]) <= DaysIn(year, MonthValue(t[..1]))) ||
    (|t| >= 4 && t[2] == '-' && MonthField(t[..2]) && DayField(t[3..]) && DayValue(t[3..]) <= DaysIn(year, MonthValue(t[..2])))
  }

  /** `strptime(s, "%Y-%m-%d")` succeeds. */
  predicate FullDate(s: string)
  {
    |s| >= 8 && s[4] == '-' && YearField(s[..4]) && MonthDay(DigitsValue(s[..4]), s[5..])
  }

  /** `_check_date_str_format`: the string parses as `%Y-%m-%d`, `%Y-%m` or `%Y`. */
  predicate DateStrFormat(s: string)
  {
    YearField(s) ||
    (|s| >= 6 && s[4] == '-' && YearField(s[..4]) && MonthField(s[5..])) ||
    (|s| >= 8 && s[4] == '-' && YearField(s[..4]) && MonthDay(DigitsValue(s[..4]), s[5..]))
  }

  lemma MonthValueRange(t: string)
    requires MonthField(t)
    ensures 1 <= MonthValue(t) <= 12
  {
    if |t| == 1 {
      assert t[..0] == [] && DigitsValue(t[..0]) == 0;
    } else {
      TwoDigitsValue(t);
    }
  }

  lemma DayValueRange(t: string)
    requires DayField(t)
    ensures 1 <= DayValue(t) <= 31
  {
    if |t| == 1 {
      assert t[..0] == [] && DigitsValue(t[..0]) == 0;
    } else if t[0] != ' ' {
      TwoDigitsValue(t);
    }
  }

  /**
   * The calendar date an accepted string denotes, a missing month or day
   * defaulting to 1: always a real date of years 1 to 9999.
   */
  function DateParts(s: string): (r: (int, int, int))
    requires DateStrFormat(s)
    ensures 1 <= r.0 <= 9999 && 1 <= r.1 <= 12 && 1 <= r.2 <= DaysIn(r.0, r.1)
  {
    var y := DigitsValue(s[..4]);
    FourDigitsValue(s[..4]);
    if YearField(s) then assert s[..4] == s; (y, 1, 1)
    else if |s| >= 8 && MonthDay(y, s[5..]) then
      var t := s[5..];
      if |t| >= 3 && t[1] == '-' && MonthField(t[..1]) && DayField(t[2..]) && DayValue(t[2..]) <= DaysIn(y, MonthValue(t[..1])) then
        MonthValueRange(t[..1]);
        DayValueRange(t[2..]);
        (y, MonthValue(t[..1]), DayValue(t[2..]))
      else
        MonthValueRange(t[..2]);
        DayValueRange(t[3..]);
        (y, MonthValue(t[..2]), DayValue(t[3..]))
    else
      MonthValueRange(s[5..]);
      (y, MonthValue(s[5..]), 1)
  }

  /** The missing-value terms accepted in place of a date. */
  const NotProvided: seq<string> := [
    "not provided", "not collected", "restricted access", "missing: control sample",
    "missing: sample group", "missing: synthetic construct", "missing: lab stock",
    "missing: third party data", "missing: data agreement established pre-2023",
    "missing: endangered species", "missing: human-identifiable"]

  /**
   * `_check_date`: a date cell passes; a string passes when it is a date in
   * one of the three formats or a missing-value term in any case; any other
   * value makes the date parser raise TypeError.
   */
  function CheckDateValue(c: Cell): Result<bool>
  {
    match c
    case DateTime(_, _, _) => Ok(true)
    case Str(s) => Ok(DateStrFormat(s) || Lower(s) in NotProvided)
    case _ => Err("TypeError")
  }

  /**
   * `check_date`: a missing required date gives one message; a present value
   * that is not a date gives one message; a valid date none.
   */
  function CheckDateErrors(row: Row, key: string, required: bool): (r: Result<seq<ValidationError>>)
    ensures r.Ok? ==> |r.value| <= 1
    ensures required && !CellTruthy(Get(row, key)) ==> r == Ok([DateMissing(Get(row, "row_num"), key)])
    ensures r.Err? <==> key in row && (!required || CellTruthy(row[key])) && CheckDateValue(row[key]).Err?
    ensures (!required || CellTruthy(Get(row, key))) && key in row && CheckDateValue(row[key]).Ok? ==>
      (r == Ok([]) <==> CheckDateValue(row[key]).value)
  {
    if required && !CellTruthy(Get(row, key)) then Ok([DateMissing(Get(row, "row_num"), key)])
    else if key in row then
      match CheckDateValue(row[key])
      case Err(e) => Err(e)
      case Ok(ok) => if ok then Ok([]) else Ok([NotADate(Get(row, "row_num"), key, Get(row, key))])
    else Ok([NotADate(Get(row, "row_num"), key, NoValue)])
  }

  lemma FourDigitsValue(s: string)
    requires |s| == 4 && AllDigits(s)
    ensures DigitsValue(s) == DigitValue(s[0]) * 1000 + DigitValue(s[1]) * 100 + DigitValue(s[2]) * 10 + DigitValue(s[3])
  {
    var s3, s2, s1 := s[..3], s[..2], s[..1];
    assert s3[..2] == s2 && s2[..1] == s1 && s1[..0] == [];
    assert DigitsValue(s1) == DigitValue(s[0]);
    assert DigitsValue(s2) == DigitValue(s[0]) * 10 + DigitValue(s[1]);
    assert DigitsValue(s3) == DigitsValue(s2) * 10 + DigitValue(s[2]);
    assert DigitsValue(s) == DigitsValue(s3) * 10 + DigitValue(s[3]);
  }

  lemma TwoDigitsValue(s: string)
    requires |s| == 2 && AllDigits(s)
    ensures DigitsValue(s) == DigitValue(s[0]) * 10 + DigitValue(s[1])
  {
    var s1 := s[..1];
    assert s1[..0] == [];
    assert DigitsValue(s1) == DigitValue(s[0]);
    assert DigitsValue(s) == DigitsValue(s1) * 10 + DigitValue(s[1]);
  }

  /** The three accepted forms, and the two-date string that is rejected. */
  lemma DateFormatExamples(ymd: string, ym: string, y: string, twoDates: string)
    requires ymd == "2019-06-08" && ym == "2019-06" && y == "2019" && twoDates == "2019-06-08,2019-06-09"
    ensures DateStrFormat(ymd) && DateStrFormat(ym) && DateStrFormat(y)
    ensures !DateStrFormat(twoDates)
  {
    FourDigitsValue(y);
    assert ymd[..4] == y && ym[..4] == y && twoDates[..4] == y;
    assert ymd[5..][..2] == "06" && ymd[5..][3..] == "08";
    TwoDigitsValue("06");
    TwoDigitsValue("08");
    assert MonthDay(2019, ymd[5..]);
    assert ym[5..] == "06";
    assert twoDates[5..][3..] == "08,2019-06-09";
    assert !DayField(twoDates[5..][3..]) && twoDates[5..][1] != '-';
    assert !MonthField(twoDates[5..]) && !YearField(twoDates);
  }

  /** A missing-value term passes in any letter case; a number is not a date string. */
  lemma CheckDateValueExamples(term: string)
    requires term == "Not Provided"
    ensures CheckDateValue(Str(term)) == Ok(true)
    ensures CheckDateValue(Int(2019)) == Err("TypeError")
  {
    assert Lower(term) == "not provided";
  }

  /** February 29th is a date only in a leap year. */
  lemma LeapDayExamples(leap: string, common: string)
    requires leap == "2020-02-29" && common == "2019-02-29"
    ensures DateStrFormat(leap) && !DateStrFormat(common)
  {
    FourDigitsValue(leap[..4]);
    FourDigitsValue(common[..4]);
    assert leap[5..][..2] == "02" && leap[5..][3..] == "29";
    assert common[5..][..2] == "02" && common[5..][3..] == "29";
    TwoDigitsValue("02");
    TwoDigitsValue("29");
    assert MonthDay(2020, leap[5..]);
    assert common[5..][1] != '-';
    assert !MonthField(common[5..]) && !YearField(common);
  }

  // ---------------------------------------------------------------------
  // complex_validation

  /** The errors appended so far, and the exception that stopped the checks. */
  datatype Outcome = Outcome(added: seq<ValidationError>, raised: Option<string>)

  /** Running one more check after `o`. */
  function Then(o: Outcome, r: Result<seq<ValidationError>>): Outcome
  {
    if o.raised.Some? then o
    else match r
      case Ok(es) => Outcome(o.added + es, None)
      case Err(e) => Outcome(o.added, Some(e))
  }

  /** `[row[key] for row in rows]`: KeyError for a row without the key. */
  function Column(rows: seq<Row>, key: string): (r: Result<seq<Cell>>)
    ensures r.Ok? <==> forall i :: 0 <= i < |rows| ==> key in rows[i]
    ensures r.Ok? ==> |r.value| == |rows| && forall i :: 0 <= i < |rows| ==> r.value[i] == rows[i][key]
  {
    if rows == [] then Ok([])
    else if key !in rows[0] then Err("KeyError")
    else match Column(rows[1..], key)
      case Err(e) => Err(e)
      case Ok(cells) => Ok([rows[0][key]] + cells)
  }

  /** The stripped aliases named by the sample rows, in order. */
  function SampleAliasCells(samples: seq<Row>): Result<seq<Cell>>
  {
    if samples == [] then Ok([])
    else if "Analysis Alias" !in samples[0] then Err("KeyError")
    else match samples[0]["Analysis Alias"]
      case Str(s) =>
        (match SampleAliasCells(samples[1..])
         case Err(e) => Err(e)
         case Ok(rest) => Ok(StrCells(StripAll(Split(s, ','))) + rest))
      case _ => Err("AttributeError")
  }

  function StrCells(xs: seq<string>): (r: seq<Cell>)
    ensures |r| == |xs| && forall i :: 0 <= i < |xs| ==> r[i] == Str(xs[i])
  {
    if xs == [] then [] else [Str(xs[0])] + StrCells(xs[1..])
  }

  /** The field groups `check_samples` requires of a sample row: at least one of them all filled. */
  const SampleGroups: seq<seq<string>> := [
    ["Analysis Alias", "Sample Accession", "Sample ID"],
    ["Analysis Alias", "Sample Name", "Title", "Tax Id", "Scientific Name", "collection_date",
     "geographic location (country and/or sea)"]]

  /** The collection date is checked for a new sample, or when an existing one gives a date. */
  predicate DateChecked(row: Row)
  {
    !CellTruthy(Get(row, "Sample Accession")) || CellTruthy(Get(row, "collection_date"))
  }

  /** The checks of one sample row: the field groups (`SampleGroups` in the validator), then the collection date. */
  function SampleRowChecks(groups: seq<seq<string>>, o: Outcome, row: Row): Outcome
  {
    var o1 := Then(o, FieldGroupErrors("Sample", row, groups));
    if DateChecked(row) then Then(o1, CheckDateErrors(row, "collection_date", true)) else o1
  }

  /** The sample rows checked in order until one raises. */
  function SampleChecks(groups: seq<seq<string>>, o: Outcome, rows: seq<Row>): Outcome
    decreases |rows|
  {
    if o.raised.Some? || rows == [] then o
    else SampleChecks(groups, SampleRowChecks(groups, o, rows[0]), rows[1..])
  }

  function SameSetCheck(r1: Result<seq<Cell>>, r2: Result<seq<Cell>>, desc1: string, desc2: string): Result<seq<ValidationError>>
  {
    match r1
    case Err(e) => Err(e)
    case Ok(l1) =>
      match r2
      case Err(e) => Err(e)
      case Ok(l2) => Ok(SameSetErrors(l1, l2, desc1, desc2))
  }

  /** The checks between worksheets, once the analysis aliases are read. */
  function CrossSheetOutcome(aliases: seq<Cell>, analysis: seq<Row>, samples: seq<Row>, files: seq<Row>, projects: seq<Row>): Outcome
  {
    var o1 := Outcome(DuplicateAliasErrors(aliases), None);
    var o2 := Then(o1, SameSetCheck(Ok(aliases), SampleAliasCells(samples), "Analysis Alias", "Samples"));
    var o3 := Then(o2, SameSetCheck(Ok(aliases), Column(files, "Analysis Alias"), "Analysis Alias", "Files"));
    Then(o3, SameSetCheck(Column(projects, "Project Title"), Column(analysis, "Project Title"), "Project Title", "Analysis"))
  }

  /** Everything `complex_validation` appends, in order, and the exception that stops it. */
  function ComplexOutcome(analysis: seq<Row>, samples: seq<Row>, files: seq<Row>, projects: seq<Row>): Outcome
  {
    match Column(analysis, "Analysis Alias")
    case Err(e) => Outcome([], Some(e))
    case Ok(aliases) => SampleChecks(SampleGroups, CrossSheetOutcome(aliases, analysis, samples, files, projects), samples)
  }

  /** Each sample row without a filled group of fields gets exactly one field-group message. */
  lemma {:induction false} SampleChecksReportGroups(groups: seq<seq<string>>, o: Outcome, rows: seq<Row>, i: nat)
    requires o.raised.None? && i < |rows|
    requires SampleChecks(groups, o, rows).raised.None?
    requires !SomeGroupFilled(rows[i], groups)
    ensures FieldGroupMissing("Sample", Get(rows[i], "row_num"), groups, GroupValues(rows[i], groups)) in SampleChecks(groups, o, rows).added
    decreases |rows|
  {
    var o1 := SampleRowChecks(groups, o, rows[0]);
    assert SampleChecks(groups, o, rows) == SampleChecks(groups, o1, rows[1..]);
    SampleChecksStopAtRaise(groups, o1, rows[1..]);
    if i == 0 {
      var x := FieldGroupMissing("Sample", Get(rows[0], "row_num"), groups, GroupValues(rows[0], groups));
      var f := FieldGroupErrors("Sample", rows[0], groups);
      var g := Then(o, f);
      assert f == Ok([x]);
      assert g.added == o.added + [x];
      ThenExtends(g, CheckDateErrors(rows[0], "collection_date", true));
      assert g.added <= o1.added;
      SampleChecksExtends(groups, o1, rows[1..]);
      var fin := SampleChecks(groups, o1, rows[1..]).added;
      assert fin[|o.added|] == x;
    } else {
      assert rows[i] == rows[1..][i - 1];
      SampleChecksReportGroups(groups, o1, rows[1..], i - 1);
    }
  }

  lemma ThenExtends(o: Outcome, r: Result<seq<ValidationError>>)
    ensures o.added <= Then(o, r).added
  {
    if o.raised.None? && r.Ok? {
      assert Then(o, r).added == o.added + r.value;
    }
  }

  /** The sample checks only ever append. */
  lemma {:induction false} SampleChecksExtends(groups: seq<seq<string>>, o: Outcome, rows: seq<Row>)
    ensures o.added <= SampleChecks(groups, o, rows).added
    decreases |rows|
  {
    if o.raised.None? && rows != [] {
      var o1 := SampleRowChecks(groups, o, rows[0]);
      var g := Then(o, FieldGroupErrors("Sample", rows[0], groups));
      ThenExtends(o, FieldGroupErrors("Sample", rows[0], groups));
      ThenExtends(g, CheckDateErrors(rows[0], "collection_date", true));
      SampleChecksExtends(groups, o1, rows[1..]);
    }
  }

  /** A row is checked only while no earlier row raised. */
  lemma {:induction false} SampleChecksStopAtRaise(groups: seq<seq<string>>, o: Outcome, rows: seq<Row>)
    ensures SampleChecks(groups, o, rows).raised.None? ==> o.raised.None? && forall i :: 0 <= i < |rows| ==> SampleRowOk(groups, rows[i])
    decreases |rows|
  {
    if o.raised.None? && rows != [] {
      var o1 := SampleRowChecks(groups, o, rows[0]);
      SampleChecksStopAtRaise(groups, o1, rows[1..]);
      if SampleChecks(groups, o, rows).raised.None? {
        forall i | 0 <= i < |rows| ensures SampleRowOk(groups, rows[i]) {
          if i > 0 {
            assert rows[i] == rows[1..][i - 1];
          }
        }
      }
    }
  }

  /** The checks of one row raise nothing. */
  predicate SampleRowOk(groups: seq<seq<string>>, row: Row)
  {
    FieldGroupErrors("Sample", row, groups).Ok? &&
    (DateChecked(row) ==> CheckDateErrors(row, "collection_date", true).Ok?)
  }

  // ---------------------------------------------------------------------
  // The validator

  class EvaXlsxValidator {
    var errors: seq<ValidationError>

    constructor ()
      ensures errors == []
    {
      errors := [];
    }

    method SameSet(list1: seq<Cell>, list2: seq<Cell>, desc1: string, desc2: string)
      modifies this
      ensures errors == old(errors) + SameSetErrors(list1, list2, desc1, desc2)
    {
      if SetOf(list1) != SetOf(list2) {
        var only1 := SortStrings(Texts(OnlyIn(list1, list2)));
        var only2 := SortStrings(Texts(OnlyIn(list2, list1)));
        errors := errors + [SetMismatch(desc1, desc2, only1, only2)];
      }
    }

    method GroupOfFieldsRequired(sheet: string, row: Row, groups: seq<seq<string>>) returns (r: Result<()>)
      modifies this
      ensures var f := FieldGroupErrors(sheet, row, groups);
        (r.Ok? <==> f.Ok?) && (f.Err? ==> r.error == f.error && errors == old(errors)) &&
        (f.Ok? ==> errors == old(errors) + f.value)
    {
      var f := FieldGroupErrors(sheet, row, groups);
      if f.Err? {
        return Err(f.error);
      }
      errors := errors + f.value;
      r := Ok(());
    }

    method CheckDate(row: Row, key: string, required: bool) returns (r: Result<()>)
      modifies this
      ensures var f := CheckDateErrors(row, key, required);
        (r.Ok? <==> f.Ok?) && (f.Err? ==> r.error == f.error && errors == old(errors)) &&
        (f.Ok? ==> errors == old(errors) + f.value)
    {
      if required && !CellTruthy(Get(row, key)) {
        errors := errors + [DateMissing(Get(row, "row_num"), key)];
        return Ok(());
      }
      if key in row {
        var ok := CheckDateValue(row[key]);
        if ok.Err? {
          return Err(ok.error);
        }
        if ok.value {
          return Ok(());
        }
      }
      errors := errors + [NotADate(Get(row, "row_num"), key, Get(row, key))];
      r := Ok(());
    }

    /** Counts the aliases, then reports each one seen more than once, in first-seen order. */
    method CheckDuplicateAliases(aliases: seq<Cell>)
      modifies this
      ensures errors == old(errors) + DuplicateAliasErrors(aliases)
    {
      var counts: map<Cell, nat> := map[];
      var order: seq<Cell> := [];
      for i := 0 to |aliases|
        invariant order == Dedup(aliases[..i])
        invariant forall a :: a in order <==> a in counts
        invariant forall a :: a in counts ==> counts[a] == multiset(aliases[..i])[a]
      {
        var a := aliases[i];
        assert aliases[..i + 1] == aliases[..i] + [a];
        assert aliases[..i + 1][..i] == aliases[..i];
        if a in counts {
          counts := counts[a := counts[a] + 1];
        } else {
          counts := counts[a := 1];
          order := order + [a];
        }
      }
      assert aliases[..|aliases|] == aliases;
      var added: seq<ValidationError> := [];
      for j := 0 to |order|
        invariant added == RepeatErrors(aliases, order[..j])
      {
        assert order[..j + 1][..j] == order[..j];
        var a := order[j];
        if counts[a] > 1 {
          added := added + [AliasRepeated(a, counts[a])];
        }
      }
      assert order[..|order|] == order;
      errors := errors + added;
    }

    /** `complex_validation` over the rows of the Analysis, Sample, Files and Project worksheets. */
    method ComplexValidation(analysis: seq<Row>, samples: seq<Row>, files: seq<Row>, projects: seq<Row>) returns (raised: Option<string>)
      modifies this
      ensures errors == old(errors) + ComplexOutcome(analysis, samples, files, projects).added
      ensures raised == ComplexOutcome(analysis, samples, files, projects).raised
    {
      var aliases := Column(analysis, "Analysis Alias");
      if aliases.Err? {
        return Some(aliases.error);
      }
      ghost var base := errors;
      raised := CrossSheetChecks(aliases.value, analysis, samples, files, projects);
      ghost var o := CrossSheetOutcome(aliases.value, analysis, samples, files, projects);
      if raised.Some? {
        return;
      }
      raised := CheckSamples(SampleGroups, samples, base, o);
    }

    /** The duplicate-alias and same-set checks of `complex_validation`. */
    method CrossSheetChecks(aliases: seq<Cell>, analysis: seq<Row>, samples: seq<Row>, files: seq<Row>, projects: seq<Row>)
      returns (raised: Option<string>)
      modifies this
      ensures var o := CrossSheetOutcome(aliases, analysis, samples, files, projects);
        errors == old(errors) + o.added && raised == o.raised
    {
      ghost var base := errors;
      CheckDuplicateAliases(aliases);
      ghost var o1 := Outcome(DuplicateAliasErrors(aliases), None);
      var sampleAliases := SampleAliasCells(samples);
      raised := SameSetStep(base, o1, Ok(aliases), sampleAliases, "Analysis Alias", "Samples");
      ghost var o2 := Then(o1, SameSetCheck(Ok(aliases), sampleAliases, "Analysis Alias", "Samples"));
      var fileAliases := Column(files, "Analysis Alias");
      ghost var o3 := Then(o2, SameSetCheck(Ok(aliases), fileAliases, "Analysis Alias", "Files"));
      if raised.Some? {
        return;
      }
      raised := SameSetStep(base, o2, Ok(aliases), fileAliases, "Analysis Alias", "Files");
      var projectTitles := Column(projects, "Project Title");
      var analysisTitles := Column(analysis, "Project Title");
      if raised.Some? {
        return;
      }
      raised := SameSetStep(base, o3, projectTitles, analysisTitles, "Project Title", "Analysis");
    }

    /** One `same_set` check after the outcome `o`, on two lists whose construction may have raised. */
    method SameSetStep(ghost base: seq<ValidationError>, ghost o: Outcome, r1: Result<seq<Cell>>, r2: Result<seq<Cell>>,
                       desc1: string, desc2: string) returns (raised: Option<string>)
      requires o.raised.None? && errors == base + o.added
      modifies this
      ensures var o' := Then(o, SameSetCheck(r1, r2, desc1, desc2));
        errors == base + o'.added && raised == o'.raised
    {
      if r1.Err? {
        return Some(r1.error);
      }
      if r2.Err? {
        return Some(r2.error);
      }
      SameSet(r1.value, r2.value, desc1, desc2);
      raised := None;
    }

    /** The checks of one sample row: its field groups, then its collection date when that is checked. */
    method CheckSampleRow(groups: seq<seq<string>>, row: Row, ghost base: seq<ValidationError>, ghost o: Outcome)
      returns (raised: Option<string>)
      requires o.raised.None? && errors == base + o.added
      modifies this
      ensures var o' := SampleRowChecks(groups, o, row);
        errors == base + o'.added && raised == o'.raised
    {
      var g := GroupOfFieldsRequired("Sample", row, groups);
      if g.Err? {
        return Some(g.error);
      }
      raised := None;
      if DateChecked(row) {
        var d := CheckDate(row, "collection_date", true);
        if d.Err? {
          raised := Some(d.error);
        }
      }
    }

    /** The per-row loop of `complex_validation`. */
    method CheckSamples(groups: seq<seq<string>>, samples: seq<Row>, ghost base: seq<ValidationError>, ghost o0: Outcome) returns (raised: Option<string>)
      requires o0.raised.None? && errors == base + o0.added
      modifies this
      ensures var o := SampleChecks(groups, o0, samples);
        errors == base + o.added && raised == o.raised
    {
      ghost var o := o0;
      for i := 0 to |samples|
        invariant o.raised.None? && errors == base + o.added
        invariant SampleChecks(groups, o0, samples) == SampleChecks(groups, o, samples[i..])
      {
        assert samples[i..][1..] == samples[i + 1..];
        raised := CheckSampleRow(groups, samples[i], base, o);
        o := SampleRowChecks(groups, o, samples[i]);
        if raised.Some? {
          return;
        }
      }
      assert samples[|samples|..] == [];
      raised := None;
    }
  }
}
