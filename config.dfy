/**
  Constants, sentinel errors, the sheet-title date pattern and the environment
  lookups of the `config` package (config/constants.go, config/env.go).
 */
module Config {
  import opened Wrappers
  import opened GoText

  // ---------------------------------------------------------------------------
  // Constants (config/constants.go)
  // ---------------------------------------------------------------------------

  /** Rate-limit delays between remote reads, in milliseconds. */
  const GreedyRequestTimeoutMs: nat := 50
  const SafeRequestTimeoutMs: nat := 1200

  /** The first year the bulk sync visits. */
  const StartYear: int := 2018

  /** Sheet header names that the field-name check ignores. */
  const ExcludeFields: seq<string> := ["да"]

  /** The failures the pipeline reports. The first two are the package's
      sentinel errors; the others stand for the `fmt.Errorf` values built in
      the other packages. */
  datatype Error =
    | CurYearSpreadsheet
    | NoRecordFound
    | NewFieldsInSpreadsheet
    | UnsupportedFieldType(kind: string, tag: string)
    | DuplicateKey(date: string, rowNumber: int)
    | StorageFailure(message: string)
    | SpreadsheetNotFound(year: string)
  {
    /** The error text; for the two sentinels exactly what `errors.New` was given. */
    function Message(): string
    {
      match this
      case CurYearSpreadsheet => "failed to get current year spreadsheet"
      case NoRecordFound => "no record found"
      case NewFieldsInSpreadsheet => "spreadsheet contains new fields which are not present in database"
      case UnsupportedFieldType(kind, tag) => "unsupported field type " + kind + " for tag " + tag
      case DuplicateKey(_, _) => "UNIQUE constraint failed: Data.Date, Data.RowNumber"
      case StorageFailure(message) => message
      case SpreadsheetNotFound(year) => "failed to get spreadsheet by year " + year
    }
  }

  /** The sentinel constants are what the rest of the code compares against. */
  lemma SentinelsAreDistinct()
    ensures CurYearSpreadsheet != NoRecordFound
    ensures CurYearSpreadsheet.Message() != NoRecordFound.Message()
    ensures SafeRequestTimeoutMs > GreedyRequestTimeoutMs
  {
  }

  // ---------------------------------------------------------------------------
  // DatePatternRegex = `\b(\d{1,2})\.(\d{1,2})\b`
  // ---------------------------------------------------------------------------

  /** The pattern matches at p with g1 digits before the dot and g2 after it. */
  predicate DateShape(s: string, p: nat, g1: nat, g2: nat) {
    && WordBoundary(s, p)
    && DigitsAt(s, p, g1)
    && p + g1 < |s| && s[p + g1] == '.'
    && DigitsAt(s, p + g1 + 1, g2)
    && WordBoundary(s, p + g1 + 1 + g2)
  }

  /** Where a match starting at p ends, if one starts there. Go's
      leftmost-first matcher tries the greedy alternatives first: two digits
      before one, in the first group and then in the second. */
  function DateMatchAt(s: string, p: nat): (r: Option<nat>)
    ensures r.Some? ==> exists g1, g2 :: 1 <= g1 <= 2 && 1 <= g2 <= 2 && DateShape(s, p, g1, g2) && r.value == p + g1 + 1 + g2
    ensures r.None? ==> forall g1, g2 :: 1 <= g1 <= 2 && 1 <= g2 <= 2 ==> !DateShape(s, p, g1, g2)
  {
    if DateShape(s, p, 2, 2) then Some(p + 5)
    else if DateShape(s, p, 2, 1) then Some(p + 4)
    else if DateShape(s, p, 1, 2) then Some(p + 4)
    else if DateShape(s, p, 1, 1) then Some(p + 3)
    else None
  }

  /** The leftmost match that starts at or after p, as (start, end). */
  function DateFindFrom(s: string, p: nat): (r: Option<(nat, nat)>)
    ensures r.Some? ==> p <= r.value.0 && DateMatchAt(s, r.value.0) == Some(r.value.1)
    ensures r.Some? ==> forall q :: p <= q < r.value.0 ==> DateMatchAt(s, q).None?
    ensures r.None? ==> forall q :: p <= q ==> DateMatchAt(s, q).None?
    decreases |s| - p
  {
    if p >= |s| then
      assert forall q :: p <= q ==> !DigitsAt(s, q, 1);
      None
    else
      match DateMatchAt(s, p)
      case Some(e) => Some((p, e))
      case None => DateFindFrom(s, p + 1)
  }

  /** `DatePatternRegex.FindString(s)`: the leftmost match, or "" if none. */
  function FindDate(s: string): (r: string)
    ensures r != "" ==> |Split(r, '.')| == 2
    ensures r != "" ==> forall i :: 0 <= i < 2 ==> 1 <= |Split(r, '.')[i]| <= 2 && AllDigits(Split(r, '.')[i])
  {
    match DateFindFrom(s, 0)
    case None => ""
    case Some((a, e)) =>
      var g1, g2 :| 1 <= g1 <= 2 && 1 <= g2 <= 2 && DateShape(s, a, g1, g2) && e == a + g1 + 1 + g2;
      DateTextSplit(s, a, g1, g2);
      s[a..e]
  }

  /** A match splits at its dot into its two digit groups. */
  lemma DateTextSplit(s: string, a: nat, g1: nat, g2: nat)
    requires 1 <= g1 <= 2 && 1 <= g2 <= 2 && DateShape(s, a, g1, g2)
    ensures var e := a + g1 + 1 + g2;
      && e <= |s|
      && Split(s[a..e], '.') == [s[a..a + g1], s[a + g1 + 1..e]]
      && AllDigits(s[a..a + g1]) && AllDigits(s[a + g1 + 1..e])
  {
    var e := a + g1 + 1 + g2;
    var day, month := s[a..a + g1], s[a + g1 + 1..e];
    assert s[a..e] == day + "." + month;
    assert '.' !in day && '.' !in month;
    SplitAfterPiece(day, '.', month);
    SplitNoSeparator(month, '.');
  }

  /** `DatePatternRegex.MatchString(s)`. */
  predicate MatchesDate(s: string) {
    DateFindFrom(s, 0).Some?
  }

  /** MatchString holds exactly when FindString finds something. */
  lemma MatchesDateIffFound(s: string)
    ensures MatchesDate(s) <==> FindDate(s) != ""
  {
    match DateFindFrom(s, 0)
    case None =>
    case Some((a, e)) =>
      assert |FindDate(s)| == e - a > 0;
  }

  /** "12.05.2023" yields "12.05"; "123.4" has no match, since a third digit
      before the dot leaves no word boundary to start at. */
  lemma DatePatternExamples()
    ensures FindDate("12.05.2023") == "12.05"
    ensures FindDate("123.4") == ""
  {
    var s := "12.05.2023";
    assert DateShape(s, 0, 2, 2);
    assert DateFindFrom(s, 0) == Some((0, 5));
    var t := "123.4";
    assert !WordBoundary(t, 1) && !WordBoundary(t, 2);
    assert DateMatchAt(t, 0).None?;
    assert DateMatchAt(t, 1).None?;
    assert DateMatchAt(t, 2).None?;
    assert DateMatchAt(t, 3).None?;
    assert DateMatchAt(t, 4).None?;
    assert DateFindFrom(t, 5).None?;
    assert DateFindFrom(t, 0).None?;
  }

  // ---------------------------------------------------------------------------
  // Environment lookups (config/env.go); the environment is a map
  // ---------------------------------------------------------------------------

  type Env = map<string, string>

  /** `getEnv`: the variable's value whenever it is set, even to "";
      the default only when it is unset. */
  function GetEnv(env: Env, key: string, defaultValue: string): (r: string)
    ensures key in env ==> r == env[key]
    ensures key !in env ==> r == defaultValue
  {
    if key in env then env[key] else defaultValue
  }

  /** `getEnvAsSlice`: the value (or default) split at every ','. */
  function GetEnvAsSlice(env: Env, key: string, defaultValue: string): (r: seq<string>)
    ensures |r| >= 1
    ensures forall i :: 0 <= i < |r| ==> ',' !in r[i]
    ensures GetEnv(env, key, defaultValue) == "" ==> r == [""]
  {
    Split(GetEnv(env, key, defaultValue), ',')
  }

  /** Joining the slice with "," gives back the string getEnv returns, so no
      text is lost or invented by the split. */
  lemma GetEnvAsSliceJoin(env: Env, key: string, defaultValue: string)
    ensures Join(GetEnvAsSlice(env, key, defaultValue), ",") == GetEnv(env, key, defaultValue)
  {
    JoinSplit(GetEnv(env, key, defaultValue), ',');
  }

  /** `getEnvAsInt`: the default when the variable is unset or is not an
      Atoi integer, the parsed value otherwise. */
  function GetEnvAsInt(env: Env, key: string, defaultValue: int): (r: int)
    ensures key !in env ==> r == defaultValue
    ensures key in env && Atoi(env[key]).None? ==> r == defaultValue
    ensures key in env && Atoi(env[key]).Some? ==> r == Atoi(env[key]).value
  {
    if key !in env then defaultValue
    else match Atoi(env[key])
      case None => defaultValue
      case Some(n) => n
  }

  /** A variable holding the decimal text of a 64-bit integer reads back as
      that integer, whatever the default. */
  lemma GetEnvAsIntReadsItoa(env: Env, key: string, defaultValue: int, n: int)
    requires IsInt64(n)
    requires key in env && env[key] == Itoa(n)
    ensures GetEnvAsInt(env, key, defaultValue) == n
  {
    AtoiItoa(n);
  }
}
