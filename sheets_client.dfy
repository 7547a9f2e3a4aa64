/**
  The pure helpers and the selection loops of sheetsclient/sheetsclient.go.
  The Google Sheets service is not modelled: what it returns (the
  spreadsheets of the configured IDs, each sheet's merges and the values of
  its read range) is given to the operations as data.
 */
module SheetsClient {
  import opened Wrappers
  import opened GoText
  import opened Config

  /** One cell of a values response: a JSON string, or any other JSON value
      (number, boolean), kept as its text. */
  datatype Cell = Text(s: string) | Other(raw: string)

  type Row = seq<Cell>
  type Grid = seq<Row>

  /** A merge of the sheet, as `sheets.GridRange`: start inclusive, end exclusive. */
  datatype MergeRange = MergeRange(startRow: int, endRow: int, startColumn: int, endColumn: int)

  /** A sheet: its title, its merges, and what reading its values range returned. */
  datatype Sheet = Sheet(title: string, merges: seq<MergeRange>, values: Result<Grid, Error>)

  datatype Spreadsheet = Spreadsheet(title: string, sheets: seq<Sheet>)

  // ---------------------------------------------------------------------------
  // IsNumeric
  // ---------------------------------------------------------------------------

  const NoBreakSpace: char := '\U{00A0}'

  /** `IsNumeric`: with every no-break space removed, Atoi accepts the text. */
  predicate IsNumeric(value: string) {
    Atoi(RemoveAll(value, NoBreakSpace)).Some?
  }

  /** Numeric text is made only of digits, signs and no-break spaces, and
      holds at least one digit; so no header word is numeric. */
  lemma NumericRunes(value: string)
    requires IsNumeric(value)
    ensures forall i :: 0 <= i < |value| ==> IsDigit(value[i]) || value[i] in {'+', '-', NoBreakSpace}
    ensures exists i :: 0 <= i < |value| && IsDigit(value[i])
  {
    var cleaned := RemoveAll(value, NoBreakSpace);
    var body := SplitSign(cleaned).1;
    assert forall x :: x in cleaned ==> IsDigit(x) || x == '+' || x == '-' by {
      forall x | x in cleaned ensures IsDigit(x) || x == '+' || x == '-' {
        var k :| 0 <= k < |cleaned| && cleaned[k] == x;
        if k > 0 && (cleaned[0] == '+' || cleaned[0] == '-') {
          assert body[k - 1] == x;
        } else if k > 0 {
          assert body[k] == x;
        }
      }
    }
    RemoveAllKeeps(value, NoBreakSpace);
    forall i | 0 <= i < |value| ensures IsDigit(value[i]) || value[i] in {'+', '-', NoBreakSpace} {
      if value[i] != NoBreakSpace {
        assert value[i] in cleaned;
      }
    }
    var d := body[|body| - 1];
    assert d in cleaned;
    assert d in value;
  }

  /** No-break spaces are ignored wherever they stand. */
  lemma NoBreakSpaceIgnored(a: string, b: string)
    ensures IsNumeric(a + [NoBreakSpace] + b) == IsNumeric(a + b)
  {
    RemoveAllDrops(a, b, NoBreakSpace);
  }

  /** Every 64-bit integer Itoa prints is numeric. */
  lemma ItoaIsNumeric(n: int)
    requires IsInt64(n)
    ensures IsNumeric(Itoa(n))
  {
    AtoiItoa(n);
    RemoveAllAbsent(Itoa(n), NoBreakSpace);
  }

  /** A thousands separator that is a no-break space keeps text numeric. */
  lemma NoBreakThousandsIsNumeric()
    ensures IsNumeric("1\U{00A0}000")
  {
    NoBreakSpaceIgnored("1", "000");
    ItoaIsNumeric(1000);
    assert NatToString(1000) == "1000";
    assert "1" + [NoBreakSpace] + "000" == "1\U{00A0}000";
  }

  /** A plain space or a letter makes text non-numeric. */
  lemma NonNumericExamples()
    ensures !IsNumeric("1 000")
    ensures !IsNumeric("Сумма")
  {
    var spaced, word := "1 000", "Сумма";
    assert !IsDigit(spaced[1]) && spaced[1] !in {'+', '-', NoBreakSpace};
    assert !IsDigit(word[0]) && word[0] !in {'+', '-', NoBreakSpace};
    if IsNumeric(spaced) {
      NumericRunes(spaced);
    }
    if IsNumeric(word) {
      NumericRunes(word);
    }
  }

  // ---------------------------------------------------------------------------
  // ExtractYearFromTitle: the regexp `\b\d{4}\b`
  // ---------------------------------------------------------------------------

  /** The year pattern matches at position p. */
  predicate YearAt(s: string, p: nat) {
    WordBoundary(s, p) && DigitsAt(s, p, 4) && WordBoundary(s, p + 4)
  }

  /** The leftmost match at or after p. */
  function YearFindFrom(s: string, p: nat): (r: Option<nat>)
    ensures r.Some? ==> p <= r.value && YearAt(s, r.value)
    ensures r.Some? ==> forall q :: p <= q < r.value ==> !YearAt(s, q)
    ensures r.None? ==> forall q :: p <= q ==> !YearAt(s, q)
    decreases |s| - p
  {
    if p + 4 > |s| then None
    else if YearAt(s, p) then Some(p)
    else YearFindFrom(s, p + 1)
  }

  /** `ExtractYearFromTitle`: the leftmost match, or "" when there is none. */
  function ExtractYearFromTitle(input: string): (year: string)
    ensures year == "" || (|year| == 4 && AllDigits(year))
    ensures year == "" <==> forall p :: !YearAt(input, p)
    ensures year != "" ==> YearFindFrom(input, 0).Some? && year == input[YearFindFrom(input, 0).value..YearFindFrom(input, 0).value + 4]
  {
    match YearFindFrom(input, 0)
    case None => ""
    case Some(p) => input[p..p + 4]
  }

  /** A year found in a title is a whole run of digits: the runes on both
      sides of it are not digits, so a run of five digits yields no year. */
  lemma YearIsWholeRun(input: string)
    requires ExtractYearFromTitle(input) != ""
    ensures var p := YearFindFrom(input, 0).value;
            (p == 0 || !IsDigit(input[p - 1])) && (p + 4 == |input| || !IsDigit(input[p + 4]))
  {
    var p := YearFindFrom(input, 0).value;
    assert WordAt(input, p);
    assert WordAt(input, p + 3);
  }

  lemma NoYearInFiveDigits(input: string)
    requires |input| == 5 && AllDigits(input)
    ensures ExtractYearFromTitle(input) == ""
  {
    forall p: nat ensures !YearAt(input, p) {
      if p == 0 {
        assert WordAt(input, 4);
      } else if p == 1 {
        assert WordAt(input, 0);
      }
    }
  }

  lemma YearExamples()
    ensures ExtractYearFromTitle("Заказы 2023") == "2023"
    ensures ExtractYearFromTitle("2023-2024") == "2023"
  {
    var s := "Заказы 2023";
    assert forall p :: 0 <= p < 7 ==> !DigitsAt(s, p, 4) by {
      forall p | 0 <= p < 7 ensures !DigitsAt(s, p, 4) {
        assert !IsDigit(s[p]);
      }
    }
    assert YearAt(s, 7);
    assert YearFindFrom(s, 7) == Some(7);
    assert YearFindFrom(s, 0) == Some(7);
    var t := "2023-2024";
    assert YearAt(t, 0);
  }

  // ---------------------------------------------------------------------------
  // GetSpreadsheetByYear
  // ---------------------------------------------------------------------------

  /** The walk over the configured IDs stops at a spreadsheet it cannot fetch
      or at the first one whose title holds the year. */
  predicate StopsAt(fetched: Result<Spreadsheet, Error>, year: string) {
    fetched.Err? || ExtractYearFromTitle(fetched.value.title) == year
  }

  /** What `GetSpreadsheetByYear` finds, given what fetching each configured
      ID returns, in configured order: the first spreadsheet whose title year
      is `year`; None once a fetch fails or when no title matches. */
  function SpreadsheetByYear(fetched: seq<Result<Spreadsheet, Error>>, year: string): Option<Spreadsheet>
    decreases |fetched|
  {
    if |fetched| == 0 then None
    else
      match fetched[0]
      case Err(_) => None
      case Ok(spreadsheet) =>
        if ExtractYearFromTitle(spreadsheet.title) == year then Some(spreadsheet)
        else SpreadsheetByYear(fetched[1..], year)
  }

  /** The spreadsheet found is the first stop of the walk, and it is a
      spreadsheet with that year; nothing is found only when the walk stops
      at a failed fetch or never stops. */
  lemma {:induction false} SpreadsheetByYearSpec(fetched: seq<Result<Spreadsheet, Error>>, year: string)
    ensures var r := SpreadsheetByYear(fetched, year);
      r.Some? ==> exists i :: 0 <= i < |fetched| && fetched[i] == Ok(r.value)
                    && ExtractYearFromTitle(r.value.title) == year
                    && forall j :: 0 <= j < i ==> !StopsAt(fetched[j], year)
    ensures var r := SpreadsheetByYear(fetched, year);
      r.None? ==> forall i :: 0 <= i < |fetched| && StopsAt(fetched[i], year) ==>
                    exists j :: 0 <= j <= i && fetched[j].Err?
    decreases |fetched|
  {
    if |fetched| > 0 && fetched[0].Ok? && ExtractYearFromTitle(fetched[0].value.title) != year {
      var rest := fetched[1..];
      SpreadsheetByYearSpec(rest, year);
      var r := SpreadsheetByYear(fetched, year);
      assert r == SpreadsheetByYear(rest, year);
      if r.Some? {
        var i :| 0 <= i < |rest| && rest[i] == Ok(r.value)
                 && ExtractYearFromTitle(r.value.title) == year
                 && forall j :: 0 <= j < i ==> !StopsAt(rest[j], year);
        assert fetched[i + 1] == rest[i];
        assert forall j :: 0 <= j < i + 1 ==> !StopsAt(fetched[j], year) by {
          assert forall j :: 1 <= j < i + 1 ==> fetched[j] == rest[j - 1];
        }
      } else {
        forall i | 0 <= i < |fetched| && StopsAt(fetched[i], year)
          ensures exists j :: 0 <= j <= i && fetched[j].Err?
        {
          assert i > 0 && fetched[i] == rest[i - 1];
          var j :| 0 <= j <= i - 1 && rest[j].Err?;
          assert fetched[j + 1] == rest[j];
        }
      }
    }
  }

  /** `GetSpreadsheetByYear`: the walk over the configured IDs, stopping at a
      spreadsheet it cannot fetch or at the first one whose title holds the
      year. */
  method GetSpreadsheetByYear(fetched: seq<Result<Spreadsheet, Error>>, year: string)
    returns (r: Option<Spreadsheet>)
    ensures r == SpreadsheetByYear(fetched, year)
  {
    var k := 0;
    while k < |fetched|
      invariant 0 <= k <= |fetched|
      invariant SpreadsheetByYear(fetched[k..], year) == SpreadsheetByYear(fetched, year)
    {
      assert fetched[k..][1..] == fetched[k + 1..];
      match fetched[k]
      case Err(_) =>
        return None;
      case Ok(spreadsheet) =>
        if ExtractYearFromTitle(spreadsheet.title) == year {
          return Some(spreadsheet);
        }
      k := k + 1;
    }
    return None;
  }

  // ---------------------------------------------------------------------------
  // GetFieldnamesFromSpreadsheet
  // ---------------------------------------------------------------------------

  /** The header names one row contributes: its string cells that are not numeric. */
  function RowNames(row: Row): (names: set<string>)
    ensures forall n :: n in names <==> Text(n) in row && !IsNumeric(n)
  {
    set c | c in row && c.Text? && !IsNumeric(c.s) :: c.s
  }

  /** A sheet is read for header names when its title holds a d.m date. */
  predicate IsDateSheet(sheet: Sheet) {
    MatchesDate(sheet.title)
  }

  /** The names a readable sheet contributes: those of its first row only. */
  function SheetNames(sheet: Sheet): set<string>
    requires sheet.values.Ok?
  {
    if |sheet.values.value| == 0 then {} else RowNames(sheet.values.value[0])
  }

  /** What collecting over a run of sheets yields: the first read error of a
      date sheet, or the union of the date sheets' first-row names. */
  function Collect(sheets: seq<Sheet>): Result<set<string>, Error>
    decreases |sheets|
  {
    if |sheets| == 0 then Ok({})
    else
      var last := sheets[|sheets| - 1];
      match Collect(sheets[..|sheets| - 1])
      case Err(e) => Err(e)
      case Ok(names) =>
        if !IsDateSheet(last) then Ok(names)
        else if last.values.Err? then Err(last.values.error)
        else Ok(names + SheetNames(last))
  }

  /** Collect fails exactly when some date sheet cannot be read, with the
      error of the first such sheet, and otherwise holds every first-row
      name of every date sheet and nothing else. */
  lemma {:induction false} CollectSpec(sheets: seq<Sheet>)
    ensures Collect(sheets).Ok? <==> forall i :: 0 <= i < |sheets| && IsDateSheet(sheets[i]) ==> sheets[i].values.Ok?
    ensures Collect(sheets).Err? ==> exists i :: 0 <= i < |sheets| && IsDateSheet(sheets[i]) && sheets[i].values == Err(Collect(sheets).error)
                                      && forall j :: 0 <= j < i && IsDateSheet(sheets[j]) ==> sheets[j].values.Ok?
    ensures Collect(sheets).Ok? ==> forall n :: n in Collect(sheets).value <==>
              exists i :: 0 <= i < |sheets| && IsDateSheet(sheets[i]) && n in SheetNames(sheets[i])
    decreases |sheets|
  {
    if |sheets| > 0 {
      var init := sheets[..|sheets| - 1];
      CollectSpec(init);
      assert forall i :: 0 <= i < |init| ==> init[i] == sheets[i];
    }
  }

  /** Once a prefix has failed, the whole run fails with the same error. */
  lemma {:induction false} CollectKeepsError(sheets: seq<Sheet>, k: nat)
    requires k <= |sheets| && Collect(sheets[..k]).Err?
    ensures Collect(sheets) == Collect(sheets[..k])
    decreases |sheets| - k
  {
    if k < |sheets| {
      assert sheets[..k + 1][..k] == sheets[..k];
      CollectKeepsError(sheets, k + 1);
    } else {
      assert sheets[..k] == sheets;
    }
  }

  /** `GetFieldnamesFromSpreadsheet` over a spreadsheet's sheets. A sheet that
      cannot be read stops the collection: the source exits through
      `log.Fatalf` there, which the model reports as that read's error. */
  method GetFieldnamesFromSpreadsheet(sheets: seq<Sheet>) returns (r: Result<set<string>, Error>)
    ensures r == Collect(sheets)
  {
    var fieldnames: set<string> := {};
    var k := 0;
    while k < |sheets|
      invariant 0 <= k <= |sheets|
      invariant Collect(sheets[..k]) == Ok(fieldnames)
    {
      var sheet := sheets[k];
      ghost var collected := fieldnames;
      assert sheets[..k + 1][..k] == sheets[..k];
      if IsDateSheet(sheet) {
        if sheet.values.Err? {
          CollectKeepsError(sheets, k + 1);
          return Err(sheet.values.error);
        }
        var grid := sheet.values.value;
        if |grid| > 0 {
          var row := grid[0];
          var before := fieldnames;
          var c := 0;
          while c < |row|
            invariant 0 <= c <= |row|
            invariant fieldnames == before + RowNames(row[..c])
          {
            assert row[..c + 1] == row[..c] + [row[c]];
            if row[c].Text? && !IsNumeric(row[c].s) {
              fieldnames := fieldnames + {row[c].s};
            }
            c := c + 1;
          }
          assert row[..|row|] == row;
        }
      }
      ghost var prefix := sheets[..k + 1];
      assert prefix[..|prefix| - 1] == sheets[..k] && prefix[|prefix| - 1] == sheet;
      if !IsDateSheet(sheet) {
        assert Collect(prefix) == Ok(fieldnames);
      } else {
        assert fieldnames == collected + SheetNames(sheet);
        assert Collect(prefix) == Ok(fieldnames);
      }
      k := k + 1;
    }
    assert sheets[..k] == sheets;
    return Ok(fieldnames);
  }
}
