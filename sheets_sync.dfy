/**
  The per-sheet sync of `StoreSpreadsheetByYear` in
  sheetshandler/sheetshandler.go: each sheet of the year's spreadsheet is
  mapped to a partition date, skipped when it has none or when its
  fingerprint equals the stored hash of that date, and otherwise rewritten in
  one transaction (the date's rows deleted, its hash updated, the rows of the
  sheet inserted), after which the essential words of the date are recounted.

  The row loop of `processSheet` (`ProcessRows`) enters through `Setup` as
  well, so that the sync is stated for any loop that yields records of the
  sheet's date with distinct keys; `RunsProcessRows` pins it to the real one
  in the methods, and `ProcessRowsReady` shows that the real one qualifies.

  What is not part of this model is given as parameters (`Setup`): the names
  and dates of the two sentinel sheets (`config.SheetNameAvailability`,
  `config.SheetAvailabilityDate`, `config.SheetNameUrgentOrders`,
  `config.SheetUrgentOrdersDate`), `GenerateHash` as a function of the grid,
  `config.FieldsWithInscription`, the runes `LowercaseCyrillicRegex`
  matches, and the storage query `GetInscriptionsByDate` as a function of the
  Data table and a date.
 */
module SheetsSync {
  import opened Wrappers
  import opened GoText
  import opened Config
  import opened Models
  import opened SheetsClient
  import opened SheetsHandler
  import opened Db
  import Essentials

  datatype Setup = Setup(
    availabilityName: string, availabilityDate: string,
    urgentName: string, urgentDate: string,
    fingerprint: Grid -> string,
    inscribed: set<string>,
    lower: char -> bool,
    inscriptions: (DataTable, string) -> Result<seq<string>, Error>,
    rowLoop: (string, seq<MergeRange>, Grid) -> Result<seq<seq<Value>>, Error>)

  /** What the code relies on of its parameters: a sentinel date is empty or
      has a '.' for `SerializeDate` to split at, `GenerateHash` (the hex
      text of a SHA-256 sum) is never empty, and the row loop gives records
      of the date it is called with, with distinct keys. */
  ghost predicate Ready(s: Setup) {
    && (s.availabilityDate == "" || |Split(s.availabilityDate, '.')| >= 2)
    && (s.urgentDate == "" || |Split(s.urgentDate, '.')| >= 2)
    && (forall g :: s.fingerprint(g) != "")
    && (forall date, merges, grid :: SheetRows(s.rowLoop(date, merges, grid), date))
  }

  /** A setup the code can run with. */
  type ReadySetup = s: Setup | Ready(s)
    witness Setup("", "", "", "", g => "-", {}, c => false, (data, date) => Ok([]), (date, merges, grid) => Ok([]))

  /** The row loop is `processSheet`'s. */
  ghost predicate RunsProcessRows(s: Setup) {
    forall date, merges, grid :: s.rowLoop(date, merges, grid) == ProcessRows(date, merges, grid, s.inscribed)
  }

  /** The three tables of the store, as values. */
  datatype Tables = Tables(hashes: map<string, string>, data: DataTable, words: map<string, map<string, nat>>)

  // ---------------------------------------------------------------------------
  // The partition date of a sheet
  // ---------------------------------------------------------------------------

  /** The day-and-month text of a sheet's title: the first date the pattern
      finds, replaced by a sentinel's date when the title is that sentinel's
      name (the urgent-orders check comes second and wins). */
  function PartitionDay(title: string, s: ReadySetup): (day: string)
    ensures day != "" ==> |Split(day, '.')| >= 2
    ensures title != s.availabilityName && title != s.urgentName ==> day == FindDate(title)
  {
    if title == s.urgentName then s.urgentDate
    else if title == s.availabilityName then s.availabilityDate
    else FindDate(title)
  }

  /** The partition date of a sheet, "<year>.<mm>.<dd>", or None when its
      title gives no day. */
  function SheetDate(sheet: Sheet, year: int, s: ReadySetup): (date: Option<string>)
  {
    var day := PartitionDay(sheet.title, s);
    if day == "" then None else Some(SerializeDate(day, Itoa(year)))
  }

  /** A title the pattern finds a date in, and that names no sentinel, is
      partitioned under that date of the given year, with the month and the
      day zero-padded to two digits and of the same values. */
  lemma TitleDate(sheet: Sheet, year: int, s: ReadySetup)
    requires sheet.title != s.availabilityName && sheet.title != s.urgentName
    requires FindDate(sheet.title) != ""
    ensures var day := FindDate(sheet.title);
      && SheetDate(sheet, year, s) == Some(SerializeDate(day, Itoa(year)))
      && var parts := Split(SerializeDate(day, Itoa(year)), '.');
      && |parts| == 3 && parts[0] == Itoa(year)
      && |parts[1]| == 2 && AllDigits(parts[1]) && DecimalValue(parts[1]) == DecimalValue(Split(day, '.')[1])
      && |parts[2]| == 2 && AllDigits(parts[2]) && DecimalValue(parts[2]) == DecimalValue(Split(day, '.')[0])
  {
    var day := FindDate(sheet.title);
    assert DayMonth(day);
    ItoaHasNoDot(year);
    SerializeDateParts(day, Itoa(year));
  }

  /** The decimal text of a year holds no '.'. */
  lemma ItoaHasNoDot(n: int)
    ensures '.' !in Itoa(n)
  {
    var digits := NatToString(if n < 0 then -n else n);
    forall i | 0 <= i < |digits|
      ensures digits[i] != '.'
    {
      assert IsDigit(digits[i]);
    }
    if n < 0 {
      assert Itoa(n) == "-" + digits;
    }
  }

  /** A title with neither a date nor a sentinel's name has no partition. */
  lemma UndatedTitle(sheet: Sheet, year: int, s: ReadySetup)
    requires sheet.title != s.availabilityName && sheet.title != s.urgentName
    requires !MatchesDate(sheet.title)
    ensures SheetDate(sheet, year, s).None?
  {
    MatchesDateIffFound(sheet.title);
  }

  // ---------------------------------------------------------------------------
  // One sheet
  // ---------------------------------------------------------------------------

  /** What the loop does with a sheet before touching the data. */
  datatype Decision =
    | Skip
    | Fail(error: Error)
    | Rewrite(date: string, hash: string, grid: Grid)

  /** No partition date: skip. A failed read: stop with its error. Otherwise
      the sheet is rewritten unless the date's stored hash equals its
      fingerprint (an absent hash reads as "", which no fingerprint is). */
  function Decide(hashes: map<string, string>, sheet: Sheet, year: int, s: ReadySetup): Decision
  {
    match SheetDate(sheet, year, s)
    case None => Skip
    case Some(date) =>
      match sheet.values
      case Err(e) => Fail(e)
      case Ok(grid) =>
        var hash := s.fingerprint(grid);
        var stored := if date in hashes then hashes[date] else "";
        if hash == stored then Skip else Rewrite(date, hash, grid)
  }

  /** The records of a sheet, as `processSheet` builds them for a date:
      well typed, all of that date, no two with the same key. */
  predicate SheetRows(rows: Result<seq<seq<Value>>, Error>, date: string) {
    rows.Ok? ==>
      && (forall i :: 0 <= i < |rows.value| ==> WellTyped(rows.value[i]) && Date(rows.value[i]) == date)
      && (forall i, j :: 0 <= i < j < |rows.value| ==> Key(rows.value[i]) != Key(rows.value[j]))
  }

  /** The row loop of `processSheet` gives such records, or fails on an
      unsupported field kind. */
  lemma ProcessedRows(date: string, merges: seq<MergeRange>, grid: Grid, inscribed: set<string>)
    ensures SheetRows(ProcessRows(date, merges, grid, inscribed), date)
    ensures ProcessRows(date, merges, grid, inscribed).Err? ==>
      ProcessRows(date, merges, grid, inscribed).error == UnsupportedFieldType("bool", "")
  {
    ProcessRowsSpec(date, merges, grid, inscribed);
  }

  /** `processSheet`'s row loop meets what `Ready` asks of the row loop. */
  lemma ProcessRowsReady(s: Setup)
    requires RunsProcessRows(s)
    ensures forall date, merges, grid :: SheetRows(s.rowLoop(date, merges, grid), date)
  {
    forall date, merges, grid
      ensures SheetRows(s.rowLoop(date, merges, grid), date)
    {
      ProcessedRows(date, merges, grid, s.inscribed);
    }
  }

  /** The transaction of `processSheet`, given the outcome of its row loop:
      the date's rows deleted, its hash set (created when absent, then
      updated), the records inserted. An error is returned instead of
      tables, for the caller to keep the tables it had. */
  function Transaction(t: Tables, date: string, hash: string, rows: Result<seq<seq<Value>>, Error>): Result<Tables, Error>
  {
    match rows
    case Err(e) => Err(e)
    case Ok(records) =>
      var (data, err) := InsertEach(WithoutDate(t.data, date), records);
      if err.Some? then Err(err.value)
      else Ok(Tables(t.hashes[date := hash], data, t.words))
  }

  /** The transaction, then the commit and the word recount of the date from
      the committed Data table; a failing recount returns its error with the
      commit in place. */
  function Commit(t: Tables, date: string, hash: string, rows: Result<seq<seq<Value>>, Error>, s: Setup): (Tables, Option<Error>)
  {
    match Transaction(t, date, hash, rows)
    case Err(e) => (t, Some(e))
    case Ok(committed) =>
      match s.inscriptions(committed.data, date)
      case Err(e) => (committed, Some(e))
      case Ok(texts) =>
        (committed.(words := committed.words[date := Essentials.Counts(Essentials.AllWords(texts, s.lower))]), None)
  }

  /** One iteration of the loop of `StoreSpreadsheetByYear`: the tables after
      it and the error that ends the loop, if any. */
  function SyncSheet(t: Tables, sheet: Sheet, year: int, s: ReadySetup): (Tables, Option<Error>)
  {
    match Decide(t.hashes, sheet, year, s)
    case Skip => (t, None)
    case Fail(e) => (t, Some(e))
    case Rewrite(date, hash, grid) => Commit(t, date, hash, s.rowLoop(date, sheet.merges, grid), s)
  }

  /** The transaction fails exactly when the row loop does, and with its
      error: the insert after the delete always goes through, since the
      records all carry the date and distinct keys. It then leaves the
      hashes with the new hash for the date, the words as they were, the rows
      of other dates untouched, and as the rows of the date exactly the
      records. */
  lemma TransactionSpec(t: Tables, date: string, hash: string, rows: Result<seq<seq<Value>>, Error>)
    requires SheetRows(rows, date)
    ensures Transaction(t, date, hash, rows).Ok? <==> rows.Ok?
    ensures rows.Err? ==> Transaction(t, date, hash, rows) == Err(rows.error)
    ensures Transaction(t, date, hash, rows).Ok? ==>
      var t' := Transaction(t, date, hash, rows).value;
      && t'.hashes == t.hashes[date := hash] && t'.words == t.words
      && (forall k: DataKey :: k.0 != date ==> (k in t'.data <==> k in t.data))
      && (forall k: DataKey :: k.0 != date && k in t.data ==> t'.data[k] == t.data[k])
      && (forall i :: 0 <= i < |rows.value| ==> Key(rows.value[i]) in t'.data && t'.data[Key(rows.value[i])] == rows.value[i])
      && (forall k :: k in t'.data && k.0 == date ==> exists i :: 0 <= i < |rows.value| && Key(rows.value[i]) == k)
  {
    if rows.Ok? {
      var records := rows.value;
      var table := WithoutDate(t.data, date);
      assert FreshKeys(table, records) by {
        forall i | 0 <= i < |records| ensures Key(records[i]) !in table {
          assert Date(records[i]) == date;
        }
      }
      InsertEachSucceeds(table, records);
      InsertEachAdds(table, records);
      InsertEachPreserves(table, records);
      var data := InsertEach(table, records).0;
      forall k: DataKey | k in data && k !in table
        ensures k.0 == date
      {
        var i :| 0 <= i < |records| && Key(records[i]) == k;
        assert Date(records[i]) == date;
      }
    }
  }

  /** The rows the store holds stay keyed by their own keys. */
  lemma TransactionKeyed(t: Tables, date: string, hash: string, rows: Result<seq<seq<Value>>, Error>)
    requires KeyedRows(t.data) && SheetRows(rows, date)
    requires Transaction(t, date, hash, rows).Ok?
    ensures KeyedRows(Transaction(t, date, hash, rows).value.data)
  {
    InsertEachKeyed(WithoutDate(t.data, date), rows.value);
  }

  /** What the tables hold for one date: its stored hash, its rows of the
      Data table, and its essential word counts. */
  datatype DateView = DateView(hash: Option<string>, rows: DataTable, words: Option<map<string, nat>>)

  function ViewOf(t: Tables, date: string): (v: DateView)
    ensures forall k :: k in v.rows <==> k in t.data && k.0 == date
  {
    DateView(
      if date in t.hashes then Some(t.hashes[date]) else None,
      map k | k in t.data && k.0 == date :: t.data[k],
      if date in t.words then Some(t.words[date]) else None)
  }

  /** Committing a sheet leaves every other date as it was. */
  lemma CommitOtherDates(t: Tables, date: string, hash: string, rows: Result<seq<seq<Value>>, Error>, s: Setup, other: string)
    requires SheetRows(rows, date) && other != date
    ensures ViewOf(Commit(t, date, hash, rows, s).0, other) == ViewOf(t, other)
  {
    TransactionSpec(t, date, hash, rows);
    var t' := Commit(t, date, hash, rows, s).0;
    assert ViewOf(t', other).rows == ViewOf(t, other).rows;
  }

  /** A commit that goes through holds the new hash of the date. */
  lemma CommitHash(t: Tables, date: string, hash: string, rows: Result<seq<seq<Value>>, Error>, s: Setup)
    ensures Commit(t, date, hash, rows, s).1.None? ==> Commit(t, date, hash, rows, s).0.hashes == t.hashes[date := hash]
  {
  }

  /** A commit that changes anything holds the new hash of the date; one
      that goes through stores as the date's rows exactly the records, and
      the counts of the date's inscriptions as its words. */
  lemma CommitSpec(t: Tables, date: string, hash: string, rows: Result<seq<seq<Value>>, Error>, s: Setup)
    requires SheetRows(rows, date)
    ensures Commit(t, date, hash, rows, s).0 != t ==> Commit(t, date, hash, rows, s).0.hashes == t.hashes[date := hash]
    ensures Commit(t, date, hash, rows, s).1.None? ==>
      var t' := Commit(t, date, hash, rows, s).0;
      && rows.Ok?
      && t'.hashes == t.hashes[date := hash]
      && (forall i :: 0 <= i < |rows.value| ==> Key(rows.value[i]) in t'.data && t'.data[Key(rows.value[i])] == rows.value[i])
      && (forall k :: k in t'.data && k.0 == date ==> exists i :: 0 <= i < |rows.value| && Key(rows.value[i]) == k)
      && s.inscriptions(t'.data, date).Ok?
      && t'.words == t.words[date := Essentials.Counts(Essentials.AllWords(s.inscriptions(t'.data, date).value, s.lower))]
  {
    TransactionSpec(t, date, hash, rows);
  }

  /** A sheet with a partition date that reads fine is left alone exactly
      when the stored hash of its date equals its fingerprint. */
  lemma SkipIffUnchanged(t: Tables, sheet: Sheet, year: int, s: ReadySetup)
    requires SheetDate(sheet, year, s).Some? && sheet.values.Ok?
    ensures var date, hash := SheetDate(sheet, year, s).value, s.fingerprint(sheet.values.value);
      SyncSheet(t, sheet, year, s) == (t, None) <==> date in t.hashes && t.hashes[date] == hash
  {
    var date, grid := SheetDate(sheet, year, s).value, sheet.values.value;
    var hash := s.fingerprint(grid);
    if !(date in t.hashes && t.hashes[date] == hash) {
      assert hash != "";
      assert Decide(t.hashes, sheet, year, s) == Rewrite(date, hash, grid);
      CommitHash(t, date, hash, s.rowLoop(date, sheet.merges, grid), s);
    }
  }

  /** A sheet without a partition date changes nothing. */
  lemma UndatedSkipped(t: Tables, sheet: Sheet, year: int, s: ReadySetup)
    requires SheetDate(sheet, year, s).None?
    ensures SyncSheet(t, sheet, year, s) == (t, None)
  {
  }

  /** A commit that fails and still changes the tables failed in the word
      recount, after the transaction went through. */
  lemma CommitFailure(t: Tables, date: string, hash: string, rows: Result<seq<seq<Value>>, Error>, s: Setup)
    requires Commit(t, date, hash, rows, s).1.Some? && Commit(t, date, hash, rows, s).0 != t
    ensures Transaction(t, date, hash, rows) == Ok(Commit(t, date, hash, rows, s).0)
    ensures s.inscriptions(Commit(t, date, hash, rows, s).0.data, date).Err?
  {
  }

  /** A sheet that fails leaves every table as it was, unless the failure is
      the word recount after the commit, which keeps the committed tables. */
  lemma FailureRollsBack(t: Tables, sheet: Sheet, year: int, s: ReadySetup)
    requires SyncSheet(t, sheet, year, s).1.Some? && SyncSheet(t, sheet, year, s).0 != t
    ensures Decide(t.hashes, sheet, year, s).Rewrite?
    ensures var d, t' := Decide(t.hashes, sheet, year, s), SyncSheet(t, sheet, year, s).0;
      && Transaction(t, d.date, d.hash, s.rowLoop(d.date, sheet.merges, d.grid)) == Ok(t')
      && s.inscriptions(t'.data, d.date).Err?
  {
    match Decide(t.hashes, sheet, year, s)
    case Skip =>
    case Fail(_) =>
    case Rewrite(date, hash, grid) =>
      CommitFailure(t, date, hash, s.rowLoop(date, sheet.merges, grid), s);
  }

  /** Syncing a sheet that went through (or was skipped) a second time
      changes nothing: its date now holds its fingerprint. */
  lemma SyncTwice(t: Tables, sheet: Sheet, year: int, s: ReadySetup)
    requires SyncSheet(t, sheet, year, s).1.None?
    ensures var t' := SyncSheet(t, sheet, year, s).0;
      SyncSheet(t', sheet, year, s) == (t', None)
  {
    var t' := SyncSheet(t, sheet, year, s).0;
    match Decide(t.hashes, sheet, year, s)
    case Skip =>
    case Fail(_) =>
    case Rewrite(date, hash, grid) =>
      CommitSpec(t, date, hash, s.rowLoop(date, sheet.merges, grid), s);
      assert t'.hashes[date] == hash;
      assert Decide(t'.hashes, sheet, year, s) == Skip;
  }

  /** Rows, hashes and words of every other date are untouched by a sheet. */
  lemma OtherDatesUntouched(t: Tables, sheet: Sheet, year: int, s: ReadySetup, other: string)
    requires SheetDate(sheet, year, s) != Some(other)
    ensures ViewOf(SyncSheet(t, sheet, year, s).0, other) == ViewOf(t, other)
  {
    match Decide(t.hashes, sheet, year, s)
    case Skip =>
    case Fail(_) =>
    case Rewrite(date, hash, grid) =>
      CommitOtherDates(t, date, hash, s.rowLoop(date, sheet.merges, grid), s, other);
  }

  /** A sheet that is rewritten and recounted without error leaves its
      date's hash, rows and words as the sheet gives them. */
  lemma RewrittenDate(t: Tables, sheet: Sheet, year: int, s: ReadySetup)
    requires Decide(t.hashes, sheet, year, s).Rewrite?
    requires SyncSheet(t, sheet, year, s).1.None?
    ensures var d := Decide(t.hashes, sheet, year, s);
      var t' := SyncSheet(t, sheet, year, s).0;
      && s.rowLoop(d.date, sheet.merges, d.grid).Ok?
      && var records := s.rowLoop(d.date, sheet.merges, d.grid).value;
      && t'.hashes == t.hashes[d.date := d.hash]
      && (forall i :: 0 <= i < |records| ==> Key(records[i]) in t'.data && t'.data[Key(records[i])] == records[i])
      && (forall k :: k in t'.data && k.0 == d.date ==> exists i :: 0 <= i < |records| && Key(records[i]) == k)
      && s.inscriptions(t'.data, d.date).Ok?
      && t'.words == t.words[d.date := Essentials.Counts(Essentials.AllWords(s.inscriptions(t'.data, d.date).value, s.lower))]
  {
    var d := Decide(t.hashes, sheet, year, s);
    var rows := s.rowLoop(d.date, sheet.merges, d.grid);
    CommitSpec(t, d.date, d.hash, rows, s);
  }

  // ---------------------------------------------------------------------------
  // The loop over the sheets
  // ---------------------------------------------------------------------------

  /** The loop over the first n sheets; the first error ends it. */
  function SyncUpTo(t: Tables, sheets: seq<Sheet>, n: nat, year: int, s: ReadySetup): (Tables, Option<Error>)
    requires n <= |sheets|
    decreases n
  {
    if n == 0 then (t, None) else SyncStep(SyncUpTo(t, sheets, n - 1, year, s), sheets[n - 1], year, s)
  }

  /** One turn of the loop: a sheet is looked at only while no error was met. */
  function SyncStep(acc: (Tables, Option<Error>), sheet: Sheet, year: int, s: ReadySetup): (Tables, Option<Error>)
  {
    if acc.1.Some? then acc else SyncSheet(acc.0, sheet, year, s)
  }

  /** The rows, hash and words of a date no sheet of the spreadsheet is
      partitioned under survive the whole loop. */
  lemma {:induction false} UnsyncedDatesUntouched(t: Tables, sheets: seq<Sheet>, n: nat, year: int, s: ReadySetup, other: string)
    requires n <= |sheets|
    requires forall i :: 0 <= i < n ==> SheetDate(sheets[i], year, s) != Some(other)
    ensures ViewOf(SyncUpTo(t, sheets, n, year, s).0, other) == ViewOf(t, other)
    decreases n
  {
    if n > 0 {
      UnsyncedDatesUntouched(t, sheets, n - 1, year, s, other);
      SyncUpToOtherDate(t, sheets, n, year, s, other);
    }
  }

  /** The n-th turn of the loop leaves a date that sheet is not partitioned
      under as the first n - 1 turns left it. */
  lemma SyncUpToOtherDate(t: Tables, sheets: seq<Sheet>, n: nat, year: int, s: ReadySetup, other: string)
    requires 0 < n <= |sheets|
    requires SheetDate(sheets[n - 1], year, s) != Some(other)
    ensures ViewOf(SyncUpTo(t, sheets, n, year, s).0, other) == ViewOf(SyncUpTo(t, sheets, n - 1, year, s).0, other)
  {
    var before := SyncUpTo(t, sheets, n - 1, year, s);
    assert SyncUpTo(t, sheets, n, year, s) == SyncStep(before, sheets[n - 1], year, s);
    StepOtherDates(before, sheets[n - 1], year, s, other);
  }

  /** One turn of the loop leaves the dates of the other sheets alone. */
  lemma StepOtherDates(acc: (Tables, Option<Error>), sheet: Sheet, year: int, s: ReadySetup, other: string)
    requires SheetDate(sheet, year, s) != Some(other)
    ensures ViewOf(SyncStep(acc, sheet, year, s).0, other) == ViewOf(acc.0, other)
  {
    if acc.1.None? {
      OtherDatesUntouched(acc.0, sheet, year, s, other);
    }
  }

  /** Once a sheet fails, the sheets after it are not looked at. */
  lemma {:induction false} SyncErrorSticks(t: Tables, sheets: seq<Sheet>, n: nat, m: nat, year: int, s: ReadySetup)
    requires n <= m <= |sheets|
    requires SyncUpTo(t, sheets, n, year, s).1.Some?
    ensures SyncUpTo(t, sheets, m, year, s) == SyncUpTo(t, sheets, n, year, s)
    decreases m - n
  {
    if n < m {
      SyncErrorSticks(t, sheets, n, m - 1, year, s);
      assert SyncUpTo(t, sheets, m, year, s) == SyncStep(SyncUpTo(t, sheets, m - 1, year, s), sheets[m - 1], year, s);
    }
  }

  /** The store's tables as a value. */
  function TablesOf(store: Store): Tables
    reads store
  {
    Tables(store.hashes, store.data, store.words)
  }

  /** The body of the loop of `StoreSpreadsheetByYear` for one sheet. */
  method StoreSheet(store: Store, sheet: Sheet, year: int, s: ReadySetup) returns (err: Option<Error>)
    requires RunsProcessRows(s) && store.Valid()
    modifies store
    ensures store.Valid()
    ensures (TablesOf(store), err) == SyncSheet(old(TablesOf(store)), sheet, year, s)
  {
    var d, tx := DecideSheet(store, sheet, year, s);
    match d
    case Skip => err := None;
    case Fail(e) => err := Some(e);
    case Rewrite(date, hash, grid) => err := RewriteSheet(store, tx.value, date, hash, sheet, grid, s);
  }

  /** The first part of the loop body: the partition date, the read values,
      the fingerprint, and inside the transaction the stored hash, created
      when absent; no transaction is begun before the date is known. Only a
      sheet to rewrite leaves the hash created; the skipped ones change
      nothing. */
  method DecideSheet(store: Store, sheet: Sheet, year: int, s: ReadySetup) returns (d: Decision, tx: Option<Snapshot>)
    modifies store
    ensures d == Decide(old(store.hashes), sheet, year, s)
    ensures store.data == old(store.data) && store.words == old(store.words)
    ensures !d.Rewrite? ==> store.hashes == old(store.hashes)
    ensures d.Rewrite? ==>
      && tx == Some(Snapshot(old(store.hashes), old(store.data)))
      && d.date in store.hashes && store.hashes == old(store.hashes)[d.date := store.hashes[d.date]]
  {
    var day := FindDate(sheet.title);
    if sheet.title == s.availabilityName {
      day := s.availabilityDate;
    }
    if sheet.title == s.urgentName {
      day := s.urgentDate;
    }
    if day == "" {
      return Skip, None;
    }
    if sheet.values.Err? {
      return Fail(sheet.values.error), None;
    }
    var grid := sheet.values.value;
    var hash := s.fingerprint(grid);
    var date := SerializeDate(day, Itoa(year));
    assert SheetDate(sheet, year, s) == Some(date);
    var begun := store.Begin();
    tx := Some(begun);
    var stored := store.GetHash(date);
    var storedHash := "";
    if stored.Err? {
      var ignored := store.CreateHash(date, hash);
    } else {
      storedHash := stored.value;
    }
    if hash == storedHash {
      return Skip, tx;
    }
    return Rewrite(date, hash, grid), tx;
  }

  /** `processSheet`, the commit and the word recount for a sheet whose
      hash differs from the stored one; the transaction began with `tx`, and
      the hash of the date has been created if it was absent. */
  method RewriteSheet(store: Store, tx: Snapshot, date: string, hash: string, sheet: Sheet, grid: Grid, s: ReadySetup)
    returns (err: Option<Error>)
    requires RunsProcessRows(s)
    requires store.Valid() && KeyedRows(tx.data)
    requires store.data == tx.data
    requires date in store.hashes && store.hashes == tx.hashes[date := store.hashes[date]]
    modifies store
    ensures store.Valid()
    ensures (TablesOf(store), err) ==
      Commit(Tables(tx.hashes, tx.data, old(store.words)), date, hash, s.rowLoop(date, sheet.merges, grid), s)
  {
    store.DeleteDataByDate(date);
    store.UpdateHash(date, hash);
    var rows := ProcessSheetRows(date, sheet.merges, grid, s.inscribed);
    assert rows == s.rowLoop(date, sheet.merges, grid);
    err := FinishSheet(store, tx, date, hash, rows, s);
  }

  /** The bulk insert of the sheet's records, the rollback on any error, and
      after the commit the recount of the date's essential words. */
  method FinishSheet(store: Store, tx: Snapshot, date: string, hash: string, rows: Result<seq<seq<Value>>, Error>, s: Setup)
    returns (err: Option<Error>)
    requires store.Valid() && KeyedRows(tx.data) && SheetRows(rows, date)
    requires store.hashes == tx.hashes[date := hash] && store.data == WithoutDate(tx.data, date)
    modifies store
    ensures store.Valid()
    ensures (TablesOf(store), err) == Commit(Tables(tx.hashes, tx.data, old(store.words)), date, hash, rows, s)
  {
    ghost var t := Tables(tx.hashes, tx.data, store.words);
    TransactionSpec(t, date, hash, rows);
    if rows.Err? {
      store.Rollback(tx);
      return Some(rows.error);
    }
    // The insert after the delete cannot fail: every record carries the
    // date just cleared, and no two share a key.
    err := store.BulkInsertDataWithTx(rows.value);
    assert TablesOf(store) == Transaction(t, date, hash, rows).value;
    var texts := s.inscriptions(store.data, date);
    err := Essentials.UpdateEssentialsByDate(store, date, texts, s.lower);
  }

  /** `StoreSpreadsheetByYear`, given what fetching each configured
      spreadsheet returns: no spreadsheet for the year is an error that
      changes nothing; otherwise its sheets are synced in order up to the
      first error. */
  method StoreSpreadsheetByYear(store: Store, fetched: seq<Result<Spreadsheet, Error>>, year: int, s: ReadySetup)
    returns (err: Option<Error>)
    requires RunsProcessRows(s) && store.Valid()
    modifies store
    ensures store.Valid()
    ensures SpreadsheetByYear(fetched, Itoa(year)).None? ==>
      err == Some(SpreadsheetNotFound(Itoa(year))) && TablesOf(store) == old(TablesOf(store))
    ensures SpreadsheetByYear(fetched, Itoa(year)).Some? ==>
      var sheets := SpreadsheetByYear(fetched, Itoa(year)).value.sheets;
      (TablesOf(store), err) == SyncUpTo(old(TablesOf(store)), sheets, |sheets|, year, s)
  {
    ghost var t := TablesOf(store);
    var yearText := Itoa(year);
    var spreadsheet := GetSpreadsheetByYear(fetched, yearText);
    if spreadsheet.None? {
      return Some(SpreadsheetNotFound(yearText));
    }
    var sheets := spreadsheet.value.sheets;
    for i := 0 to |sheets|
      invariant store.Valid()
      invariant (TablesOf(store), None) == SyncUpTo(t, sheets, i, year, s)
    {
      err := StoreSheet(store, sheets[i], year, s);
      if err.Some? {
        SyncErrorSticks(t, sheets, i + 1, |sheets|, year, s);
        return err;
      }
    }
    return None;
  }
}
