/**
  The row normaliser and record builder of sheetshandler/sheetshandler.go:
  `processRow`, `getMergedCells`, `PopulateDataStructFromMap`,
  `handleSearchField`, `SerializeDate` and the row loop of `processSheet`.
  Each loop of the source is a method proved equal to a specification
  function; the lemmas state what the source promises about those functions.
  A `*db.Data` is a record value (see Models); the functions that fill it
  through a pointer return the filled record instead.
 */
module SheetsHandler {
  import opened Wrappers
  import opened GoText
  import opened Config
  import opened Models
  import opened SheetsClient

  /** The `map[string]string` a row turns into. */
  type RowData = map<string, string>

  /** Reading a Go map: the zero value "" for a missing key. */
  function Lookup(data: RowData, key: string): string
  {
    if key in data then data[key] else ""
  }

  function Min(a: nat, b: nat): nat
  {
    if a <= b then a else b
  }

  // ---------------------------------------------------------------------------
  // processRow: the header row
  // ---------------------------------------------------------------------------

  /** The string cells of the header row, in order; other cells are skipped,
      so the names after them shift left. */
  function HeaderNames(row: Row): (names: seq<string>)
    ensures |names| <= |row|
    decreases |row|
  {
    if |row| == 0 then []
    else HeaderNames(row[..|row| - 1]) + (if row[|row| - 1].Text? then [row[|row| - 1].s] else [])
  }

  /** Growing the scanned prefix by one cell adds that cell's name, if it
      is a string. */
  lemma HeaderNamesSnoc(row: Row, c: nat)
    requires c < |row|
    ensures HeaderNames(row[..c + 1]) == HeaderNames(row[..c]) + (if row[c].Text? then [row[c].s] else [])
  {
    assert row[..c + 1][..c] == row[..c];
    assert row[..c + 1][c] == row[c];
  }

  /** Some header cell is the string "Ссылка". */
  predicate HasLinkHeader(row: Row)
  {
    exists c :: 0 <= c < |row| && row[c] == Text(LinkHeader)
  }

  /** Growing the scanned prefix by one cell finds "Ссылка" iff it was
      already found or that cell is it. */
  lemma HasLinkHeaderSnoc(row: Row, c: nat)
    requires c < |row|
    ensures HasLinkHeader(row[..c + 1]) <==> HasLinkHeader(row[..c]) || row[c] == Text(LinkHeader)
  {
    if HasLinkHeader(row[..c + 1]) {
      var j :| 0 <= j < c + 1 && row[..c + 1][j] == Text(LinkHeader);
      if j < c {
        assert row[..c][j] == Text(LinkHeader);
      }
    }
    if HasLinkHeader(row[..c]) {
      var j :| 0 <= j < c && row[..c][j] == Text(LinkHeader);
      assert row[..c + 1][j] == Text(LinkHeader);
    }
    if row[c] == Text(LinkHeader) {
      assert row[..c + 1][c] == Text(LinkHeader);
    }
  }

  /** The names of a row are the names of its parts, one after the other. */
  lemma {:induction false} HeaderNamesAppend(a: Row, b: Row)
    ensures HeaderNames(a + b) == HeaderNames(a) + HeaderNames(b)
    decreases |b|
  {
    if |b| == 0 {
      assert a + b == a;
    } else {
      var b' := b[..|b| - 1];
      assert (a + b)[..|a + b| - 1] == a + b';
      HeaderNamesAppend(a, b');
    }
  }

  /** A non-string header cell contributes no name: the names to its right
      move one column to the left. */
  lemma NonTextHeaderSkipped(a: Row, raw: string, b: Row)
    ensures HeaderNames(a + [Other(raw)] + b) == HeaderNames(a) + HeaderNames(b)
  {
    HeaderNamesAppend(a + [Other(raw)], b);
    assert (a + [Other(raw)])[..|a|] == a;
  }

  /** A header row of strings only gives its strings, in column order. */
  lemma {:induction false} AllTextHeader(row: Row)
    requires forall c :: 0 <= c < |row| ==> row[c].Text?
    ensures |HeaderNames(row)| == |row|
    ensures forall c :: 0 <= c < |row| ==> HeaderNames(row)[c] == row[c].s
    decreases |row|
  {
    if |row| > 0 {
      AllTextHeader(row[..|row| - 1]);
    }
  }

  // ---------------------------------------------------------------------------
  // processRow: a data row
  // ---------------------------------------------------------------------------

  /** Column c of a data row writes key k: the column is within the header,
      the cell is a string, and either it is column 0 of a sheet without a
      link column (always written to "Ссылка") or it is non-empty and its
      header name is k. */
  predicate Writes(row: Row, names: seq<string>, link: bool, c: nat, k: string)
  {
    && c < |row| && c < |names| && row[c].Text?
    && if !link && c == 0 then k == LinkHeader else row[c].s != "" && names[c] == k
  }

  /** The map after the first n columns: "Ссылка" is always there, and
      nothing else is ever the empty string. */
  function RowDataUpTo(row: Row, names: seq<string>, link: bool, n: nat): (data: RowData)
    requires n <= |row| && n <= |names|
    ensures LinkHeader in data
    ensures forall k :: k in data && k != LinkHeader ==> data[k] != ""
    decreases n
  {
    if n == 0 then map[LinkHeader := ""]
    else
      var data := RowDataUpTo(row, names, link, n - 1);
      var c := n - 1;
      if !row[c].Text? then data
      else if !link && c == 0 then data[LinkHeader := row[c].s]
      else if row[c].s != "" then data[names[c] := row[c].s]
      else data
  }

  /** What `processRow` returns for a data row: columns beyond the header are
      not read. */
  function DataRow(row: Row, names: seq<string>, link: bool): RowData
  {
    RowDataUpTo(row, names, link, Min(|row|, |names|))
  }

  /** The last of the first n columns that writes k, if any. */
  function LastWriter(row: Row, names: seq<string>, link: bool, n: nat, k: string): (c: Option<nat>)
    ensures c.Some? ==> c.value < n && Writes(row, names, link, c.value, k)
    ensures c.Some? ==> forall c' :: c.value < c' < n ==> !Writes(row, names, link, c', k)
    ensures c.None? ==> forall c' :: 0 <= c' < n ==> !Writes(row, names, link, c', k)
    decreases n
  {
    if n == 0 then None
    else if Writes(row, names, link, n - 1, k) then Some(n - 1)
    else LastWriter(row, names, link, n - 1, k)
  }

  /** Each key of a data row holds the cell of the last column that writes
      it; a key no column writes is absent, except "Ссылка", which is then "". */
  lemma {:induction false} RowDataLastWriter(row: Row, names: seq<string>, link: bool, n: nat, k: string)
    requires n <= |row| && n <= |names|
    ensures k in RowDataUpTo(row, names, link, n) <==> k == LinkHeader || LastWriter(row, names, link, n, k).Some?
    ensures Lookup(RowDataUpTo(row, names, link, n), k) ==
            match LastWriter(row, names, link, n, k)
            case Some(c) => row[c].s
            case None => ""
    decreases n
  {
    if n > 0 {
      RowDataLastWriter(row, names, link, n - 1, k);
    }
  }

  /** Only the first n columns matter. */
  lemma {:induction false} RowDataPrefix(row: Row, row': Row, names: seq<string>, link: bool, n: nat)
    requires n <= |row| && n <= |row'| && n <= |names|
    requires row[..n] == row'[..n]
    ensures RowDataUpTo(row, names, link, n) == RowDataUpTo(row', names, link, n)
    decreases n
  {
    if n > 0 {
      assert row[..n - 1] == row[..n][..n - 1] && row'[..n - 1] == row'[..n][..n - 1];
      assert row[n - 1] == row[..n][n - 1] && row'[n - 1] == row'[..n][n - 1];
      RowDataPrefix(row, row', names, link, n - 1);
    }
  }

  /** Cells to the right of the last header column are ignored. */
  lemma ExtraColumnsIgnored(row: Row, extra: Row, names: seq<string>, link: bool)
    requires |row| >= |names|
    ensures DataRow(row + extra, names, link) == DataRow(row, names, link)
  {
    assert (row + extra)[..|names|] == row[..|names|];
    RowDataPrefix(row + extra, row, names, link, |names|);
  }

  /** `processRow` as a function: for row 0 the names and the link flag grow
      and the map is just {"Ссылка": ""}; for a data row they stay and the
      map is the row's data. */
  function RowResult(rowIdx: nat, row: Row, names: seq<string>, link: bool): (RowData, seq<string>, bool)
  {
    if rowIdx == 0 then (map[LinkHeader := ""], names + HeaderNames(row), link || HasLinkHeader(row))
    else (DataRow(row, names, link), names, link)
  }

  /** `processRow`: one pass over the cells with the header-width `break`,
      the non-string `continue`, and the names and link flag updated through
      what the Go code passes by pointer (here taken and returned). */
  method ProcessRow(rowIdx: nat, row: Row, names: seq<string>, linkExists: bool)
    returns (data: RowData, names': seq<string>, linkExists': bool)
    ensures (data, names', linkExists') == RowResult(rowIdx, row, names, linkExists)
  {
    data := map[LinkHeader := ""];
    names' := names;
    linkExists' := linkExists;
    var c := 0;
    while c < |row|
      invariant 0 <= c <= |row|
      invariant rowIdx == 0 ==> data == map[LinkHeader := ""]
      invariant rowIdx == 0 ==> names' == names + HeaderNames(row[..c])
      invariant rowIdx == 0 ==> linkExists' == (linkExists || HasLinkHeader(row[..c]))
      invariant rowIdx > 0 ==> names' == names && linkExists' == linkExists
      invariant rowIdx > 0 ==> c <= |names| && data == RowDataUpTo(row, names, linkExists, c)
    {
      if rowIdx > 0 && c >= |names'| {
        break;
      }
      match row[c] {
        case Other(_) =>
        case Text(s) =>
          if rowIdx == 0 {
            if s == LinkHeader {
              linkExists' := true;
            }
            names' := names' + [s];
          } else if !linkExists' && c == 0 {
            data := data[LinkHeader := s];
          } else if s != "" {
            data := data[names'[c] := s];
          }
      }
      if rowIdx == 0 {
        HasLinkHeaderSnoc(row, c);
        HeaderNamesSnoc(row, c);
      }
      c := c + 1;
    }
    assert row[..|row|] == row;
  }

  // ---------------------------------------------------------------------------
  // getMergedCells
  // ---------------------------------------------------------------------------

  /** A merge marks row r: it starts in column 0 or 1 and r lies strictly
      after its first row and before its end. */
  predicate Covers(m: MergeRange, r: int)
  {
    m.startColumn <= 1 && m.startRow < r < m.endRow
  }

  /** The rows from low up to, not including, high. */
  function Range(low: int, high: int): (rows: set<int>)
    ensures forall r :: r in rows <==> low <= r < high
    decreases high - low
  {
    if low >= high then {} else {low} + Range(low + 1, high)
  }

  /** The rows a merge marks. */
  function CoveredRows(m: MergeRange): set<int>
  {
    if m.startColumn > 1 then {} else Range(m.startRow + 1, m.endRow)
  }

  /** The continuation rows of the merges: exactly the rows some merge covers. */
  function MarkedRows(merges: seq<MergeRange>): (marked: set<int>)
    ensures forall r :: r in marked <==> exists i :: 0 <= i < |merges| && Covers(merges[i], r)
    decreases |merges|
  {
    if |merges| == 0 then {}
    else
      var front := merges[..|merges| - 1];
      var marked := MarkedRows(front) + CoveredRows(merges[|merges| - 1]);
      assert forall i :: 0 <= i < |front| ==> front[i] == merges[i];
      marked
  }

  /** A merge never marks its own first row. */
  lemma FirstRowNotMarked(m: MergeRange)
    ensures m.startRow !in MarkedRows([m])
  {
  }

  /** Widening a range by its end row adds that row. */
  lemma RangeSnoc(low: int, high: int)
    requires low <= high
    ensures Range(low, high + 1) == Range(low, high) + {high}
  {
  }

  /** The inner loop of `getMergedCells`: the rows after the first row of a
      merge starting in column 0 or 1, up to its end. */
  method MarkRows(marked: set<int>, m: MergeRange) returns (marked': set<int>)
    requires m.startColumn <= 1
    ensures marked' == marked + CoveredRows(m)
  {
    marked' := marked;
    var row := m.startRow + 1;
    while row < m.endRow
      invariant m.startRow < row
      invariant row <= m.endRow || row == m.startRow + 1
      invariant marked' == marked + Range(m.startRow + 1, row)
    {
      RangeSnoc(m.startRow + 1, row);
      marked' := marked' + {row};
      row := row + 1;
    }
  }

  /** `getMergedCells`: the loop over the merges; a merge starting right of
      column 1 is skipped. */
  method GetMergedCells(merges: seq<MergeRange>) returns (marked: set<int>)
    ensures marked == MarkedRows(merges)
  {
    marked := {};
    for i := 0 to |merges|
      invariant marked == MarkedRows(merges[..i])
    {
      assert merges[..i + 1][..i] == merges[..i];
      var m := merges[i];
      if m.startColumn > 1 {
        continue;
      }
      marked := MarkRows(marked, m);
    }
    assert merges[..|merges|] == merges;
  }

  // ---------------------------------------------------------------------------
  // SerializeDate
  // ---------------------------------------------------------------------------

  /** A day and a month of one or two digits each, around one '.': what the
      date pattern finds in a sheet title. */
  predicate DayMonth(name: string) {
    var parts := Split(name, '.');
    && |parts| == 2
    && 1 <= |parts[0]| <= 2 && AllDigits(parts[0])
    && 1 <= |parts[1]| <= 2 && AllDigits(parts[1])
  }

  /** `SerializeDate`: "<year>.<month>.<day>", month and day zero-padded to
      two digits. Go indexes the second piece, so a name without '.' panics. */
  function SerializeDate(name: string, year: string): string
    requires |Split(name, '.')| >= 2
  {
    var parts := Split(name, '.');
    year + "." + PadZero(parts[1], 2) + "." + PadZero(parts[0], 2)
  }

  /** Every title date serialises to a year, a two-digit month and a
      two-digit day that split apart again and keep their values. */
  lemma SerializeDateParts(name: string, year: string)
    requires DayMonth(name) && '.' !in year
    ensures var date := Split(SerializeDate(name, year), '.');
      && date == [year, PadZero(Split(name, '.')[1], 2), PadZero(Split(name, '.')[0], 2)]
      && |date[1]| == 2 && AllDigits(date[1]) && DecimalValue(date[1]) == DecimalValue(Split(name, '.')[1])
      && |date[2]| == 2 && AllDigits(date[2]) && DecimalValue(date[2]) == DecimalValue(Split(name, '.')[0])
  {
    var parts := Split(name, '.');
    var month, day := PadZero(parts[1], 2), PadZero(parts[0], 2);
    PadZeroValue(parts[1], 2);
    PadZeroValue(parts[0], 2);
    assert '.' !in month && '.' !in day by {
      assert forall i :: 0 <= i < 2 ==> IsDigit(month[i]) && IsDigit(day[i]);
    }
    assert SerializeDate(name, year) == year + ['.'] + month + ['.'] + day;
    SplitThree(year, month, day, '.');
  }

  /** Two title dates of one year name the same day exactly when their day
      numbers and their month numbers are equal ("5.3" and "05.03" agree). */
  lemma SerializeDateCanonical(a: string, b: string, year: string)
    requires DayMonth(a) && DayMonth(b) && '.' !in year
    ensures SerializeDate(a, year) == SerializeDate(b, year) <==>
            DecimalValue(Split(a, '.')[0]) == DecimalValue(Split(b, '.')[0]) &&
            DecimalValue(Split(a, '.')[1]) == DecimalValue(Split(b, '.')[1])
  {
    SerializeDateParts(a, year);
    SerializeDateParts(b, year);
    var pa, pb := Split(a, '.'), Split(b, '.');
    var ma, mb := PadZero(pa[1], 2), PadZero(pb[1], 2);
    var da, db := PadZero(pa[0], 2), PadZero(pb[0], 2);
    if DecimalValue(pa[0]) == DecimalValue(pb[0]) && DecimalValue(pa[1]) == DecimalValue(pb[1]) {
      TwoDigitsUnique(ma, mb);
      TwoDigitsUnique(da, db);
    }
  }

  /** The dates of different years differ. */
  lemma SerializeDateYears(a: string, b: string, year: string, year': string)
    requires DayMonth(a) && DayMonth(b) && '.' !in year && '.' !in year'
    requires year != year'
    ensures SerializeDate(a, year) != SerializeDate(b, year')
  {
    SerializeDateParts(a, year);
    SerializeDateParts(b, year');
  }

  // ---------------------------------------------------------------------------
  // PopulateDataStructFromMap
  // ---------------------------------------------------------------------------

  /** The int coercion: `strconv.Atoi`, else the first ',' made a '.' and
      the text read as a decimal and rounded half away from zero, else 0. */
  function CoerceInt(value: string): int
  {
    match Atoi(value)
    case Some(n) => n
    case None =>
      match ParseDecimal(ReplaceFirst(value, ',', '.'))
      case Some(d) => RoundHalfAwayFromZero(d)
      case None => 0
  }

  /** A text Atoi accepts is a plain decimal without a fraction of the same value. */
  lemma AtoiIsDecimal(s: string)
    requires Atoi(s).Some?
    ensures ',' !in s
    ensures ParseDecimal(s).Some? && RoundHalfAwayFromZero(ParseDecimal(s).value) == Atoi(s).value
  {
    var (negative, body) := SplitSign(s);
    assert '.' !in body && ',' !in body;
    SplitNoSeparator(body, '.');
    assert body + "" == body;
    if |s| > 0 && (s[0] == '+' || s[0] == '-') {
      assert s == [s[0]] + body;
    }
  }

  /** The int coercion is one rule: a number with at most one decimal comma
      or point, rounded half away from zero, and 0 for anything else; the
      Atoi attempt first only agrees with it. */
  lemma CoerceIntIsRounding(value: string)
    ensures CoerceInt(value) ==
      match ParseDecimal(ReplaceFirst(value, ',', '.'))
      case Some(d) => RoundHalfAwayFromZero(d)
      case None => 0
  {
    if Atoi(value).Some? {
      AtoiIsDecimal(value);
      assert ReplaceFirst(value, ',', '.') == value;
    }
  }

  /** A Sum written by Itoa reads back as itself. */
  lemma CoerceIntItoa(n: int)
    requires IsInt64(n)
    ensures CoerceInt(Itoa(n)) == n
  {
    AtoiItoa(n);
  }

  /** A decimal comma is read as a point: digits, a comma and digits are
      the decimal they spell, rounded half away from zero. */
  lemma CoerceIntDecimalComma(whole: string, fraction: string)
    requires |whole| > 0 && |fraction| > 0 && AllDigits(whole) && AllDigits(fraction)
    ensures CoerceInt(whole + "," + fraction) ==
            RoundHalfAwayFromZero(Decimal(false, DecimalValue(whole + fraction), |fraction|))
  {
    var s := whole + "," + fraction;
    assert !AllDigits(s) by { assert s[|whole|] == ','; }
    assert SplitSign(s) == (false, s) by { assert s[0] == whole[0]; }
    assert ',' !in whole;
    var k := IndexOf(s, ',');
    assert k == Some(|whole|);
    var t := whole + "." + fraction;
    assert ReplaceFirst(s, ',', '.') == t;
    assert SplitSign(t) == (false, t) by { assert t[0] == whole[0]; }
    assert '.' !in whole && '.' !in fraction;
    SplitAfterPiece(whole, '.', fraction);
    SplitNoSeparator(fraction, '.');
  }

  lemma ThreeDigits(a: char, b: char, c: char)
    requires IsDigit(a) && IsDigit(b) && IsDigit(c)
    ensures DecimalValue([a, b, c]) == DigitValue(a) * 100 + DigitValue(b) * 10 + DigitValue(c)
  {
    assert [a][..0] == [];
    assert DecimalValue([a]) == DigitValue(a);
    assert [a, b][..1] == [a];
    assert DecimalValue([a, b]) == DigitValue(a) * 10 + DigitValue(b);
    assert [a, b, c][..2] == [a, b];
  }

  /** "12,5" is 12.5, which rounds up to 13. */
  lemma CoerceIntHalfUp(whole: string, fraction: string)
    requires whole == "12" && fraction == "5"
    ensures CoerceInt(whole + "," + fraction) == 13
  {
    CoerceIntDecimalComma(whole, fraction);
    ThreeDigits('1', '2', '5');
    assert whole + fraction == ['1', '2', '5'];
  }

  /** "7,49" is 7.49, which rounds down to 7. */
  lemma CoerceIntDown(whole: string, fraction: string)
    requires whole == "7" && fraction == "49"
    ensures CoerceInt(whole + "," + fraction) == 7
  {
    CoerceIntDecimalComma(whole, fraction);
    ThreeDigits('7', '4', '9');
    assert whole + fraction == ['7', '4', '9'];
  }

  /** Text that is not a number, the empty cell included, counts as 0. */
  lemma CoerceIntNotANumber()
    ensures CoerceInt("") == 0
    ensures CoerceInt("abc") == 0
  {
    assert Split("", '.') == [""];
    assert ReplaceFirst("abc", ',', '.') == "abc";
    assert !AllDigits("abc") by { assert !IsDigit("abc"[0]); }
    SplitNoSeparator("abc", '.');
  }

  /** What the kind switch stores in an `int` or `string` field i given the
      text of its column: the int coercion, or the text, upper-cased for the
      field named "Type". */
  function Stored(i: nat, value: string): (v: Value)
    requires i < FieldCount && FieldKind(i) != KBool
    ensures KindOf(v) == FieldKind(i)
  {
    if FieldKind(i) == KInt then Int(CoerceInt(value))
    else Str(if FieldNames[i] == "Type" then ToUpper(value) else value)
  }

  /** The kind switch for field i: any kind but `int` and `string` is an error
      naming the kind and the tag. */
  function FieldValue(i: nat, value: string): Result<Value, Error>
    requires i < FieldCount
  {
    if FieldKind(i) == KBool then Err(UnsupportedFieldType("bool", FieldTags[i]))
    else Ok(Stored(i, value))
  }

  /** The record after the first n fields: a field whose tag is not a key
      keeps its value. */
  function PopulateUpTo(record: seq<Value>, values: RowData, n: nat): (r: Result<seq<Value>, Error>)
    requires |record| == FieldCount && n <= FieldCount
    ensures r.Ok? ==> |r.value| == FieldCount
    decreases n
  {
    if n == 0 then Ok(record)
    else
      match PopulateUpTo(record, values, n - 1)
      case Err(e) => Err(e)
      case Ok(r) =>
        var tag := FieldTags[n - 1];
        if tag !in values then Ok(r)
        else
          match FieldValue(n - 1, values[tag])
          case Err(e) => Err(e)
          case Ok(v) => Ok(r[n - 1 := v])
  }

  /** Once a field fails, the rest are not looked at. */
  lemma {:induction false} PopulateErrorSticks(record: seq<Value>, values: RowData, n: nat, m: nat)
    requires |record| == FieldCount && n <= m <= FieldCount
    requires PopulateUpTo(record, values, n).Err?
    ensures PopulateUpTo(record, values, m) == PopulateUpTo(record, values, n)
    decreases m - n
  {
    if n < m {
      PopulateErrorSticks(record, values, n + 1, m);
    }
  }

  /** After the first n fields the walk has failed exactly when it has
      passed IsMerged (the one `bool` field, untagged) and the row has a value
      under the empty name, and the error names that kind and tag. */
  lemma {:induction false} PopulateUpToError(record: seq<Value>, values: RowData, n: nat)
    requires |record| == FieldCount && n <= FieldCount
    ensures PopulateUpTo(record, values, n).Err? <==> IsMergedIdx < n && "" in values
    ensures PopulateUpTo(record, values, n).Err? ==> PopulateUpTo(record, values, n).error == UnsupportedFieldType("bool", "")
    decreases n
  {
    if n > 0 {
      PopulateUpToError(record, values, n - 1);
      if n - 1 == IsMergedIdx {
        assert FieldTags[IsMergedIdx] == "";
      } else {
        assert FieldKind(n - 1) != KBool;
      }
    }
  }

  /** While the walk succeeds, each field passed whose tag is a key holds the
      stored value of that key, and every other field is as it was. */
  lemma {:induction false} PopulateUpToFields(record: seq<Value>, values: RowData, n: nat)
    requires |record| == FieldCount && n <= FieldCount
    requires PopulateUpTo(record, values, n).Ok?
    ensures forall i :: 0 <= i < FieldCount ==>
      PopulateUpTo(record, values, n).value[i] ==
        if i < n && FieldTags[i] in values && FieldKind(i) != KBool then Stored(i, values[FieldTags[i]]) else record[i]
    decreases n
  {
    if n > 0 {
      var k := n - 1;
      PopulateUpToFields(record, values, k);
      var r := PopulateUpTo(record, values, k).value;
      var r' := PopulateUpTo(record, values, n).value;
      forall i | 0 <= i < FieldCount
        ensures r'[i] == if i < n && FieldTags[i] in values && FieldKind(i) != KBool then Stored(i, values[FieldTags[i]]) else record[i]
      {
        if i != k {
          assert r'[i] == r[i];
        }
      }
    }
  }

  function Populated(record: seq<Value>, values: RowData): Result<seq<Value>, Error>
    requires |record| == FieldCount
  {
    PopulateUpTo(record, values, FieldCount)
  }

  /** Filling a record from a row fails exactly when the row has a value under
      the empty header name (the tag of every untagged field), and then with
      the unsupported `bool` kind of IsMerged; otherwise the key fields,
      Search and IsMerged are untouched, every tagged field whose header is in
      the row takes the stored value of that column, and the rest keep theirs. */
  lemma PopulatedSpec(record: seq<Value>, values: RowData)
    requires WellTyped(record)
    ensures Populated(record, values).Err? <==> "" in values
    ensures Populated(record, values).Err? ==> Populated(record, values).error == UnsupportedFieldType("bool", "")
    ensures Populated(record, values).Ok? ==>
      var r := Populated(record, values).value;
      && WellTyped(r)
      && Key(r) == Key(record) && Search(r) == Search(record) && IsMerged(r) == IsMerged(record)
      && forall i :: IsMergedIdx < i < FieldCount ==>
           r[i] == if FieldTags[i] in values then Stored(i, values[FieldTags[i]]) else record[i]
  {
    PopulateUpToError(record, values, FieldCount);
    if Populated(record, values).Ok? {
      PopulatedOk(record, values);
    }
  }

  /** The successful case of PopulatedSpec. */
  lemma PopulatedOk(record: seq<Value>, values: RowData)
    requires WellTyped(record)
    requires Populated(record, values).Ok?
    ensures var r := Populated(record, values).value;
      && WellTyped(r)
      && Key(r) == Key(record) && Search(r) == Search(record) && IsMerged(r) == IsMerged(record)
      && forall i :: IsMergedIdx < i < FieldCount ==>
           r[i] == if FieldTags[i] in values then Stored(i, values[FieldTags[i]]) else record[i]
  {
    PopulatedHead(record, values);
    PopulateUpToFields(record, values, FieldCount);
  }

  /** A filled record is well typed and keeps its four untagged fields. */
  lemma PopulatedHead(record: seq<Value>, values: RowData)
    requires WellTyped(record)
    requires Populated(record, values).Ok?
    ensures var r := Populated(record, values).value;
      WellTyped(r) && forall i :: 0 <= i <= IsMergedIdx ==> r[i] == record[i]
  {
    PopulateUpToError(record, values, FieldCount);
    PopulateUpToFields(record, values, FieldCount);
    var r := PopulateUpTo(record, values, FieldCount).value;
    forall i | 0 <= i < FieldCount
      ensures KindOf(r[i]) == FieldKind(i)
    {
    }
    UntaggedFields();
    forall i | 0 <= i <= IsMergedIdx
      ensures r[i] == record[i]
    {
      assert FieldTags[i] == "" && "" !in values;
    }
  }

  /** The fields the rest of the pipeline reads: Link is the "Ссылка" text,
      Sum the coerced "Сумма" text and Type the upper-cased "Тип" text, each
      where the row has it; every other string field takes its text as is. */
  lemma PopulatedNamedFields(record: seq<Value>, values: RowData)
    requires WellTyped(record)
    requires Populated(record, values).Ok?
    ensures var r := Populated(record, values).value;
      && Link(r) == (if LinkHeader in values then values[LinkHeader] else Link(record))
      && Sum(r) == (if SumHeader in values then CoerceInt(values[SumHeader]) else Sum(record))
      && StrAt(r, TypeIdx) == (if "Тип" in values then ToUpper(values["Тип"]) else StrAt(record, TypeIdx))
    ensures var r := Populated(record, values).value;
      |r| == FieldCount &&
      forall i :: IsMergedIdx < i < FieldCount && i != TypeIdx && i != SumIdx && FieldTags[i] in values ==>
        r[i] == Str(values[FieldTags[i]])
  {
    PopulatedSpec(record, values);
    NamedHeaders();
    FieldKindFacts();
    TypeNameUnique();
  }

  /** `PopulateDataStructFromMap`: the loop over the fields of the record. */
  method PopulateDataStructFromMap(record: seq<Value>, values: RowData) returns (r: Result<seq<Value>, Error>)
    requires |record| == FieldCount
    ensures r == Populated(record, values)
  {
    var cur := record;
    for i := 0 to FieldCount
      invariant |cur| == FieldCount
      invariant PopulateUpTo(record, values, i) == Ok(cur)
    {
      var tag := FieldTags[i];
      if tag !in values {
        continue;
      }
      var value := values[tag];
      match FieldKind(i) {
        case KInt =>
          var n := Atoi(value);
          if n.Some? {
            cur := SetField(cur, i, Int(n.value));
          } else {
            var f := ParseDecimal(ReplaceFirst(value, ',', '.'));
            if f.Some? {
              cur := SetField(cur, i, Int(RoundHalfAwayFromZero(f.value)));
            } else {
              cur := SetField(cur, i, Int(0));
            }
          }
        case KString =>
          if FieldNames[i] == "Type" {
            value := ToUpper(value);
          }
          cur := SetField(cur, i, Str(value));
        case KBool =>
          PopulateErrorSticks(record, values, i + 1, FieldCount);
          return Err(UnsupportedFieldType("bool", tag));
      }
    }
    return Ok(cur);
  }

  // ---------------------------------------------------------------------------
  // handleSearchField
  // ---------------------------------------------------------------------------

  /** The text gathered from the first n fields: for each field whose name is
      in `inscribed` (the FieldsWithInscription set), the upper-cased
      `reflect.Value.String()` of the field and a space. */
  function SearchText(record: seq<Value>, inscribed: set<string>, n: nat): string
    requires n <= |record| && n <= FieldCount
    decreases n
  {
    if n == 0 then ""
    else SearchText(record, inscribed, n - 1) +
         (if FieldNames[n - 1] in inscribed then ToUpper(ValueString(record[n - 1])) + " " else "")
  }

  /** The record with Search set to the trimmed text of its inscribed fields. */
  function SearchFilled(record: seq<Value>, inscribed: set<string>): seq<Value>
    requires |record| == FieldCount
  {
    SetField(record, SearchIdx, Str(TrimSpace(SearchText(record, inscribed, FieldCount))))
  }

  lemma {:induction false} SearchTextUpper(record: seq<Value>, inscribed: set<string>, n: nat)
    requires n <= |record| && n <= FieldCount
    ensures IsUpper(SearchText(record, inscribed, n))
    decreases n
  {
    if n > 0 {
      SearchTextUpper(record, inscribed, n - 1);
      if FieldNames[n - 1] in inscribed {
        var v := ValueString(record[n - 1]);
        forall i | 0 <= i < |v| ensures UpperRune(UpperRune(v[i])) == UpperRune(v[i]) {
          UpperRuneIdempotent(v[i]);
        }
      }
    }
  }

  /** The text depends on the inscribed fields only. */
  lemma {:induction false} SearchTextSelected(a: seq<Value>, b: seq<Value>, inscribed: set<string>, n: nat)
    requires n <= |a| && n <= |b| && n <= FieldCount
    requires forall i :: 0 <= i < n && FieldNames[i] in inscribed ==> a[i] == b[i]
    ensures SearchText(a, inscribed, n) == SearchText(b, inscribed, n)
    decreases n
  {
    if n > 0 {
      SearchTextSelected(a, b, inscribed, n - 1);
    }
  }

  /** With no inscribed field the text is empty. */
  lemma {:induction false} SearchTextNone(record: seq<Value>, inscribed: set<string>, n: nat)
    requires n <= |record| && n <= FieldCount
    requires forall i :: 0 <= i < n ==> FieldNames[i] !in inscribed
    ensures SearchText(record, inscribed, n) == ""
    decreases n
  {
    if n > 0 {
      SearchTextNone(record, inscribed, n - 1);
    }
  }

  /** The new Search is upper case and has no white space at either end. */
  lemma SearchFilledUpper(record: seq<Value>, inscribed: set<string>)
    requires |record| == FieldCount
    ensures var search := Search(SearchFilled(record, inscribed));
      IsUpper(search) && (|search| > 0 ==> search[0] !in Whitespace && search[|search| - 1] !in Whitespace)
  {
    var t := SearchText(record, inscribed, FieldCount);
    assert SearchFilled(record, inscribed) == SetField(record, SearchIdx, Str(TrimSpace(t)));
    SearchTextUpper(record, inscribed, FieldCount);
    TrimmedSearchUpper(record, t);
  }

  /** Filling Search keeps the record well typed and leaves its key, merge
      flag and link as they were. */
  lemma SearchFilledFrame(record: seq<Value>, inscribed: set<string>)
    requires WellTyped(record)
    ensures var r := SearchFilled(record, inscribed);
      WellTyped(r) && Key(r) == Key(record) && IsMerged(r) == IsMerged(record) && Link(r) == Link(record)
  {
    var t := TrimSpace(SearchText(record, inscribed, FieldCount));
    assert SearchFilled(record, inscribed) == SetField(record, SearchIdx, Str(t));
    SetSearchFrame(record, t);
  }

  /** Setting Search to any string changes no other field. */
  lemma SetSearchFrame(record: seq<Value>, t: string)
    requires WellTyped(record)
    ensures var r := SetField(record, SearchIdx, Str(t));
      WellTyped(r) && Key(r) == Key(record) && IsMerged(r) == IsMerged(record) && Link(r) == Link(record)
  {
  }

  /** Search set to an upper-case text, trimmed, is upper case and has no
      white space at either end. */
  lemma TrimmedSearchUpper(record: seq<Value>, t: string)
    requires |record| == FieldCount && IsUpper(t)
    ensures var search := Search(SetField(record, SearchIdx, Str(TrimSpace(t))));
      IsUpper(search) && (|search| > 0 ==> search[0] !in Whitespace && search[|search| - 1] !in Whitespace)
  {
    TrimmedUpper(t);
  }

  /** With no inscribed field the new Search is empty. */
  lemma SearchFilledNone(record: seq<Value>, inscribed: set<string>)
    requires |record| == FieldCount
    requires forall i :: 0 <= i < FieldCount ==> FieldNames[i] !in inscribed
    ensures Search(SearchFilled(record, inscribed)) == ""
  {
    SearchTextNone(record, inscribed, FieldCount);
  }

  /** Two records that agree on their inscribed fields get the same Search. */
  lemma SearchFilledSelected(a: seq<Value>, b: seq<Value>, inscribed: set<string>)
    requires |a| == |b| == FieldCount
    requires forall i :: 0 <= i < FieldCount && FieldNames[i] in inscribed ==> a[i] == b[i]
    ensures Search(SearchFilled(a, inscribed)) == Search(SearchFilled(b, inscribed))
  {
    SearchTextSelected(a, b, inscribed, FieldCount);
  }

  lemma SearchFilledTwice(record: seq<Value>, inscribed: set<string>)
    requires |record| == FieldCount
    requires FieldNames[SearchIdx] !in inscribed
    ensures SearchFilled(SearchFilled(record, inscribed), inscribed) == SearchFilled(record, inscribed)
  {
    var once := SearchFilled(record, inscribed);
    SearchTextSelected(once, record, inscribed, FieldCount);
  }

  /** Unless Search itself is inscribed, filling it twice is filling it once. */
  lemma SearchFilledIdempotent(record: seq<Value>, inscribed: set<string>)
    requires |record| == FieldCount
    requires "Search" !in inscribed
    ensures SearchFilled(SearchFilled(record, inscribed), inscribed) == SearchFilled(record, inscribed)
  {
    UntaggedFields();
    SearchFilledTwice(record, inscribed);
  }

  /** `handleSearchField`: the loop over the fields that gathers the text. */
  method HandleSearchField(record: seq<Value>, inscribed: set<string>) returns (r: seq<Value>)
    requires |record| == FieldCount
    ensures r == SearchFilled(record, inscribed)
  {
    var text := "";
    for i := 0 to FieldCount
      invariant text == SearchText(record, inscribed, i)
    {
      if FieldNames[i] in inscribed {
        text := text + ToUpper(ValueString(record[i])) + " ";
      }
    }
    r := SetField(record, SearchIdx, Str(TrimSpace(text)));
  }

  // ---------------------------------------------------------------------------
  // processSheet: the row loop
  // ---------------------------------------------------------------------------

  /** What the row loop carries: the header names, whether a link column
      exists, and the records gathered so far. */
  datatype RowsState = RowsState(names: seq<string>, link: bool, records: seq<seq<Value>>)

  /** A continuation row of a merge, after some record: it takes over the
      link of the last record. */
  predicate Inherits(rowIdx: nat, marked: set<int>, records: seq<seq<Value>>)
  {
    rowIdx in marked && |records| > 0
  }

  /** A row becomes a record when it inherits a link, has a link, or has a sum
      (a sum without a link is only logged). */
  predicate KeepsRow(data: RowData, inherits: bool)
  {
    inherits || Lookup(data, LinkHeader) != "" || Lookup(data, SumHeader) != ""
  }

  /** The row map a record is filled from. */
  function RecordData(data: RowData, inherits: bool, records: seq<seq<Value>>): RowData
    requires inherits ==> |records| > 0
  {
    if inherits then data[LinkHeader := Link(records[|records| - 1])] else data
  }

  /** A kept row's record: `&db.Data{Date, RowNumber, IsMerged}` filled from
      the row map, then its Search set. */
  function BuildRecord(date: string, rowIdx: nat, merged: bool, values: RowData, inscribed: set<string>): Result<seq<Value>, Error>
  {
    match Populated(NewRecord(date, rowIdx + 1, merged), values)
    case Err(e) => Err(e)
    case Ok(r) => Ok(SearchFilled(r, inscribed))
  }

  /** The records after a data row has been read into data: unchanged if
      the row is dropped, else one more, filled from the row and the
      inherited link, or the error filling it gave. */
  function AppendRow(date: string, marked: set<int>, inscribed: set<string>, rowIdx: nat, data: RowData, records: seq<seq<Value>>)
    : Result<seq<seq<Value>>, Error>
  {
    var inherits := Inherits(rowIdx, marked, records);
    if !KeepsRow(data, inherits) then Ok(records)
    else
      match BuildRecord(date, rowIdx, rowIdx in marked, RecordData(data, inherits, records), inscribed)
      case Err(e) => Err(e)
      case Ok(r) => Ok(records + [r])
  }

  /** One pass of the row loop over row rowIdx. */
  function StepRow(date: string, marked: set<int>, inscribed: set<string>, rowIdx: nat, row: Row, st: RowsState): Result<RowsState, Error>
  {
    var (data, names, link) := RowResult(rowIdx, row, st.names, st.link);
    match AppendRow(date, marked, inscribed, rowIdx, data, st.records)
    case Err(e) => Err(e)
    case Ok(records) => Ok(RowsState(names, link, records))
  }

  /** The loop after the first n rows; the first failing row stops it. */
  function RowsUpTo(date: string, marked: set<int>, inscribed: set<string>, grid: Grid, n: nat): Result<RowsState, Error>
    requires n <= |grid|
    decreases n
  {
    if n == 0 then Ok(RowsState([], false, []))
    else
      match RowsUpTo(date, marked, inscribed, grid, n - 1)
      case Err(e) => Err(e)
      case Ok(st) => StepRow(date, marked, inscribed, n - 1, grid[n - 1], st)
  }

  /** The records of a sheet, or the error of its first failing row. */
  function ProcessRows(date: string, merges: seq<MergeRange>, grid: Grid, inscribed: set<string>): Result<seq<seq<Value>>, Error>
  {
    match RowsUpTo(date, MarkedRows(merges), inscribed, grid, |grid|)
    case Err(e) => Err(e)
    case Ok(st) => Ok(st.records)
  }

  lemma {:induction false} RowsErrorSticks(date: string, marked: set<int>, inscribed: set<string>, grid: Grid, n: nat, m: nat)
    requires n <= m <= |grid|
    requires RowsUpTo(date, marked, inscribed, grid, n).Err?
    ensures RowsUpTo(date, marked, inscribed, grid, m) == RowsUpTo(date, marked, inscribed, grid, n)
    decreases m - n
  {
    if n < m {
      RowsErrorSticks(date, marked, inscribed, grid, n + 1, m);
    }
  }

  /** A new record filled from a row keeps its key and merge flag, and its
      link is the row's "Ссылка" text. */
  lemma NewRecordPopulated(date: string, rowNumber: int, merged: bool, values: RowData)
    requires Populated(NewRecord(date, rowNumber, merged), values).Ok?
    ensures var r := Populated(NewRecord(date, rowNumber, merged), values).value;
      && WellTyped(r) && Key(r) == (date, rowNumber) && IsMerged(r) == merged
      && Link(r) == Lookup(values, LinkHeader)
  {
    var record := NewRecord(date, rowNumber, merged);
    PopulatedSpec(record, values);
    PopulatedNamedFields(record, values);
    NamedHeaders();
    assert Link(record) == "";
  }

  /** A built record is well typed, has the given key, merge flag and the
      row's link, and an upper-case Search. */
  lemma BuildRecordSpec(date: string, rowIdx: nat, merged: bool, values: RowData, inscribed: set<string>)
    requires BuildRecord(date, rowIdx, merged, values, inscribed).Ok?
    ensures var r := BuildRecord(date, rowIdx, merged, values, inscribed).value;
      && WellTyped(r) && Key(r) == (date, rowIdx + 1) && IsMerged(r) == merged
      && Link(r) == Lookup(values, LinkHeader)
      && IsUpper(Search(r))
  {
    var filled := Populated(NewRecord(date, rowIdx + 1, merged), values).value;
    assert BuildRecord(date, rowIdx, merged, values, inscribed).value == SearchFilled(filled, inscribed);
    NewRecordPopulated(date, rowIdx + 1, merged, values);
    SearchFilledFrame(filled, inscribed);
    SearchFilledUpper(filled, inscribed);
  }

  /** Building fails exactly when the row map has a value under the empty
      header name. */
  lemma BuildRecordError(date: string, rowIdx: nat, merged: bool, values: RowData, inscribed: set<string>)
    ensures BuildRecord(date, rowIdx, merged, values, inscribed).Err? <==> "" in values
    ensures BuildRecord(date, rowIdx, merged, values, inscribed).Err? ==>
      BuildRecord(date, rowIdx, merged, values, inscribed).error == UnsupportedFieldType("bool", "")
  {
    PopulatedSpec(NewRecord(date, rowIdx + 1, merged), values);
  }

  /** A row fails exactly when it is kept and has a value under the empty
      header name. */
  lemma AppendRowError(date: string, marked: set<int>, inscribed: set<string>, rowIdx: nat, data: RowData, records: seq<seq<Value>>)
    ensures var inherits := Inherits(rowIdx, marked, records);
      AppendRow(date, marked, inscribed, rowIdx, data, records).Err? <==> KeepsRow(data, inherits) && "" in data
    ensures AppendRow(date, marked, inscribed, rowIdx, data, records).Err? ==>
      AppendRow(date, marked, inscribed, rowIdx, data, records).error == UnsupportedFieldType("bool", "")
  {
    var inherits := Inherits(rowIdx, marked, records);
    if KeepsRow(data, inherits) {
      var values := RecordData(data, inherits, records);
      assert LinkHeader != "";
      assert "" in values <==> "" in data;
      BuildRecordError(date, rowIdx, rowIdx in marked, values, inscribed);
    }
  }

  /** A kept row adds one record: of the sheet's date and the row's number
      (rowIdx + 1), merged exactly when the row is marked, well typed, and
      carrying the link of the last record when it inherits one, the link
      cell of its own row otherwise. A dropped row adds nothing. */
  lemma AppendRowRecord(date: string, marked: set<int>, inscribed: set<string>, rowIdx: nat, data: RowData, records: seq<seq<Value>>)
    requires AppendRow(date, marked, inscribed, rowIdx, data, records).Ok?
    ensures var inherits := Inherits(rowIdx, marked, records);
      var after := AppendRow(date, marked, inscribed, rowIdx, data, records).value;
      && (!KeepsRow(data, inherits) ==> after == records)
      && (KeepsRow(data, inherits) ==>
            && |after| == |records| + 1 && after[..|records|] == records
            && WellTyped(after[|records|])
            && Key(after[|records|]) == (date, rowIdx + 1)
            && IsMerged(after[|records|]) == (rowIdx in marked)
            && IsUpper(Search(after[|records|]))
            && Link(after[|records|]) == if inherits then Link(records[|records| - 1]) else Lookup(data, LinkHeader))
  {
    var inherits := Inherits(rowIdx, marked, records);
    if KeepsRow(data, inherits) {
      var values := RecordData(data, inherits, records);
      BuildRecordSpec(date, rowIdx, rowIdx in marked, values, inscribed);
      var after := records + [BuildRecord(date, rowIdx, rowIdx in marked, values, inscribed).value];
      assert after[..|records|] == records;
    }
  }

  /** What the records of a sheet read up to row n satisfy: each is a well
      typed record of the sheet's date whose row number is a data row (2 to
      n: the header row never becomes one) and whose IsMerged says whether the
      row is marked; the row numbers strictly increase; and a merged record
      after the first has the link of the record before it. */
  predicate SheetRecords(records: seq<seq<Value>>, date: string, marked: set<int>, n: nat)
  {
    && (forall k :: 0 <= k < |records| ==>
          && WellTyped(records[k]) && Date(records[k]) == date
          && 2 <= RowNumber(records[k]) <= n
          && IsMerged(records[k]) == (RowNumber(records[k]) - 1 in marked))
    && (forall j, k :: 0 <= j < k < |records| ==> RowNumber(records[j]) < RowNumber(records[k]))
    && (forall k :: 0 < k < |records| && IsMerged(records[k]) ==> Link(records[k]) == Link(records[k - 1]))
  }

  /** The header row is never kept: it has no sum and no link, and there is
      no record yet to inherit from. */
  lemma HeaderRowDropped(row: Row, names: seq<string>, link: bool, marked: set<int>)
    ensures !KeepsRow(RowResult(0, row, names, link).0, Inherits(0, marked, []))
  {
    assert SumHeader != LinkHeader by { assert SumHeader[1] != LinkHeader[1]; }
  }

  lemma SheetRecordsStep(records: seq<seq<Value>>, after: seq<seq<Value>>, date: string, marked: set<int>, rowIdx: nat, inherits: bool)
    requires SheetRecords(records, date, marked, rowIdx)
    requires rowIdx >= 1
    requires inherits <==> rowIdx in marked && |records| > 0
    requires |after| == |records| + 1 && after[..|records|] == records
    requires WellTyped(after[|records|]) && Key(after[|records|]) == (date, rowIdx + 1)
    requires IsMerged(after[|records|]) == (rowIdx in marked)
    requires inherits ==> Link(after[|records|]) == Link(records[|records| - 1])
    ensures SheetRecords(after, date, marked, rowIdx + 1)
  {
    var n := |records|;
    forall k | 0 <= k < |after|
      ensures WellTyped(after[k]) && Date(after[k]) == date && 2 <= RowNumber(after[k]) <= rowIdx + 1
      ensures IsMerged(after[k]) == (RowNumber(after[k]) - 1 in marked)
    {
      if k < n {
        assert after[k] == after[..n][k];
      }
    }
    forall j, k | 0 <= j < k < |after|
      ensures RowNumber(after[j]) < RowNumber(after[k])
    {
      assert after[j] == after[..n][j];
      if k < n {
        assert after[k] == after[..n][k];
      }
    }
    forall k | 0 < k < |after| && IsMerged(after[k])
      ensures Link(after[k]) == Link(after[k - 1])
    {
      assert after[k - 1] == after[..n][k - 1];
      if k < n {
        assert after[k] == after[..n][k];
      }
    }
  }

  /** A row's append keeps SheetRecords, one row further. */
  lemma AppendRowRecords(date: string, marked: set<int>, inscribed: set<string>, rowIdx: nat, row: Row, names: seq<string>, link: bool, records: seq<seq<Value>>)
    requires SheetRecords(records, date, marked, rowIdx)
    requires rowIdx == 0 ==> records == []
    requires AppendRow(date, marked, inscribed, rowIdx, RowResult(rowIdx, row, names, link).0, records).Ok?
    ensures SheetRecords(AppendRow(date, marked, inscribed, rowIdx, RowResult(rowIdx, row, names, link).0, records).value, date, marked, rowIdx + 1)
  {
    var data := RowResult(rowIdx, row, names, link).0;
    AppendRowRecord(date, marked, inscribed, rowIdx, data, records);
    var inherits := Inherits(rowIdx, marked, records);
    if rowIdx == 0 {
      HeaderRowDropped(row, names, link, marked);
    } else if KeepsRow(data, inherits) {
      SheetRecordsStep(records, AppendRow(date, marked, inscribed, rowIdx, data, records).value, date, marked, rowIdx, inherits);
    }
  }

  lemma StepRowRecords(date: string, marked: set<int>, inscribed: set<string>, rowIdx: nat, row: Row, st: RowsState)
    requires SheetRecords(st.records, date, marked, rowIdx)
    requires rowIdx == 0 ==> st.records == []
    ensures StepRow(date, marked, inscribed, rowIdx, row, st).Ok? ==>
      SheetRecords(StepRow(date, marked, inscribed, rowIdx, row, st).value.records, date, marked, rowIdx + 1)
    ensures StepRow(date, marked, inscribed, rowIdx, row, st).Err? ==>
      StepRow(date, marked, inscribed, rowIdx, row, st).error == UnsupportedFieldType("bool", "")
  {
    var data := RowResult(rowIdx, row, st.names, st.link).0;
    AppendRowError(date, marked, inscribed, rowIdx, data, st.records);
    if AppendRow(date, marked, inscribed, rowIdx, data, st.records).Ok? {
      AppendRowRecords(date, marked, inscribed, rowIdx, row, st.names, st.link, st.records);
    }
  }

  lemma {:induction false} RowsUpToRecords(date: string, marked: set<int>, inscribed: set<string>, grid: Grid, n: nat)
    requires n <= |grid|
    ensures RowsUpTo(date, marked, inscribed, grid, n).Ok? ==> SheetRecords(RowsUpTo(date, marked, inscribed, grid, n).value.records, date, marked, n)
    ensures RowsUpTo(date, marked, inscribed, grid, n).Err? ==> RowsUpTo(date, marked, inscribed, grid, n).error == UnsupportedFieldType("bool", "")
    decreases n
  {
    if n > 0 {
      var k := n - 1;
      RowsUpToRecords(date, marked, inscribed, grid, k);
      if RowsUpTo(date, marked, inscribed, grid, k).Ok? {
        StepRowRecords(date, marked, inscribed, k, grid[k], RowsUpTo(date, marked, inscribed, grid, k).value);
      }
    }
  }

  /** The records of a sheet satisfy SheetRecords over all its rows, and no
      two share a primary key; a sheet fails only on a row with a value under
      the empty header name. */
  lemma ProcessRowsSpec(date: string, merges: seq<MergeRange>, grid: Grid, inscribed: set<string>)
    ensures ProcessRows(date, merges, grid, inscribed).Ok? ==>
      var records := ProcessRows(date, merges, grid, inscribed).value;
      && SheetRecords(records, date, MarkedRows(merges), |grid|)
      && forall j, k :: 0 <= j < k < |records| ==> Key(records[j]) != Key(records[k])
    ensures ProcessRows(date, merges, grid, inscribed).Err? ==>
      ProcessRows(date, merges, grid, inscribed).error == UnsupportedFieldType("bool", "")
  {
    RowsUpToRecords(date, MarkedRows(merges), inscribed, grid, |grid|);
  }

  /** The body of the row loop after `processRow`: the link inheritance of
      merged rows, the drop rule, `PopulateDataStructFromMap`,
      `handleSearchField` and the append. */
  method AppendRowData(date: string, marked: set<int>, inscribed: set<string>, rowIdx: nat, data: RowData, records: seq<seq<Value>>)
    returns (r: Result<seq<seq<Value>>, Error>)
    ensures r == AppendRow(date, marked, inscribed, rowIdx, data, records)
  {
    var data' := data;
    var merged := rowIdx in marked;
    if merged && |records| > 0 {
      data' := data'[LinkHeader := Link(records[|records| - 1])];
    } else if Lookup(data', LinkHeader) == "" {
      if Lookup(data', SumHeader) == "" {
        return Ok(records);
      }
    }
    var populated := PopulateDataStructFromMap(NewRecord(date, rowIdx + 1, merged), data');
    if populated.Err? {
      return Err(populated.error);
    }
    var filled := HandleSearchField(populated.value, inscribed);
    return Ok(records + [filled]);
  }

  /** One pass of `processSheet`'s row loop: `processRow`, then the record
      built from what it read. */
  method ProcessSheetRow(date: string, marked: set<int>, inscribed: set<string>, rowIdx: nat, row: Row, st: RowsState)
    returns (r: Result<RowsState, Error>)
    ensures r == StepRow(date, marked, inscribed, rowIdx, row, st)
  {
    var data, names, link := ProcessRow(rowIdx, row, st.names, st.link);
    var appended := AppendRowData(date, marked, inscribed, rowIdx, data, st.records);
    if appended.Err? {
      return Err(appended.error);
    }
    return Ok(RowsState(names, link, appended.value));
  }

  /** `processSheet`'s row loop, with the call to `getMergedCells`. */
  method ProcessSheetRows(date: string, merges: seq<MergeRange>, grid: Grid, inscribed: set<string>)
    returns (r: Result<seq<seq<Value>>, Error>)
    ensures r == ProcessRows(date, merges, grid, inscribed)
  {
    var marked := GetMergedCells(merges);
    var st := RowsState([], false, []);
    for rowIdx := 0 to |grid|
      invariant RowsUpTo(date, marked, inscribed, grid, rowIdx) == Ok(st)
    {
      var next := ProcessSheetRow(date, marked, inscribed, rowIdx, grid[rowIdx], st);
      if next.Err? {
        RowsErrorSticks(date, marked, inscribed, grid, rowIdx + 1, |grid|);
        return Err(next.error);
      }
      st := next.value;
    }
    return Ok(st.records);
  }
}
