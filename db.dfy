/**
  The storage of db/db.go. The SQL text that `Init` and the bulk inserts
  build is modelled exactly; the SQLite database behind it is modelled as two
  in-memory tables, Hashes keyed by Date and Data keyed by (Date, RowNumber),
  plus the per-date essential-word counts, all fields of one `Store` object.
  A transaction is a snapshot of the tables that a rollback restores.
 */
module Db {
  import opened Wrappers
  import opened GoText
  import opened Config
  import opened Models

  // ---------------------------------------------------------------------------
  // CREATE TABLE text (Init)
  // ---------------------------------------------------------------------------

  /** The column type `Init` writes for a kind; a kind it does not list gets "". */
  function SqlType(k: Kind): string
  {
    match k
    case KString => "TEXT"
    case KInt => "INTEGER"
    case KBool => ""
  }

  /** The column definition "Name TYPE" of one field. */
  function ColumnDef(name: string, kind: Kind): string
  {
    name + " " + SqlType(kind)
  }

  /** The column definitions of a struct with the given field names and kinds. */
  function ColumnDefs(names: seq<string>, kinds: seq<Kind>): (defs: seq<string>)
    requires |names| == |kinds|
    ensures |defs| == |names|
    ensures forall i :: 0 <= i < |names| ==> defs[i] == ColumnDef(names[i], kinds[i])
  {
    seq(|names|, i requires 0 <= i < |names| => ColumnDef(names[i], kinds[i]))
  }

  const CreateDataPrefix: string := "CREATE TABLE IF NOT EXISTS Data ("
  const ForeignKeyClause: string := ", FOREIGN KEY (Date) REFERENCES Hashes(Date)"

  /** The CREATE TABLE statement `Init` runs for a struct with these fields. */
  function CreateTableSql(names: seq<string>, kinds: seq<Kind>): string
    requires |names| == |kinds|
  {
    CreateDataPrefix + Join(ColumnDefs(names, kinds), ", ") + ", PRIMARY KEY (" + Join(PrimaryKeys, ", ") + ")"
      + ForeignKeyClause + ");"
  }

  /** The kinds of the fields of `Data`, in declaration order. */
  function DataKinds(): (kinds: seq<Kind>)
    ensures |kinds| == FieldCount && forall i :: 0 <= i < FieldCount ==> kinds[i] == FieldKind(i)
  {
    seq(FieldCount, i requires 0 <= i < FieldCount => FieldKind(i))
  }

  /** The statement `Init` runs for the Data table. */
  function DataTableSql(): string
  {
    CreateTableSql(FieldNames, DataKinds())
  }

  /** The first loop of `Init`: each reflected field's "Name TYPE", with a
      ", " after every one but the last. */
  method AppendColumnDefs(start: string, names: seq<string>, kinds: seq<Kind>) returns (sql: string)
    requires |names| == |kinds|
    ensures sql == start + Join(ColumnDefs(names, kinds), ", ")
  {
    ghost var defs := ColumnDefs(names, kinds);
    sql := start;
    for i := 0 to |names|
      invariant i == 0 ==> sql == start
      invariant 0 < i < |names| ==> sql == start + Join(defs[..i], ", ") + ", "
      invariant 0 < i == |names| ==> sql == start + Join(defs[..i], ", ")
    {
      var def := ColumnDef(names[i], kinds[i]);
      assert sql + def == start + Join(defs[..i + 1], ", ") by {
        JoinPrefixStep(defs, i, ", ");
        if i > 0 {
          Concat3(start, Join(defs[..i], ", ") + ", ", def);
        }
      }
      sql := sql + def;
      if i < |names| - 1 {
        sql := sql + ", ";
      }
    }
    assert defs[..|names|] == defs;
  }

  /** The second loop of `Init`: the key columns, ", " between them. */
  method AppendKeys(start: string, keys: seq<string>) returns (sql: string)
    ensures sql == start + Join(keys, ", ")
  {
    sql := start;
    for i := 0 to |keys|
      invariant sql == start + Join(keys[..i], ", ")
    {
      if i != 0 {
        assert keys[..i + 1] == keys[..i] + [keys[i]];
        JoinSnoc(keys[..i], keys[i], ", ");
        sql := sql + ", ";
      } else {
        assert keys[..1] == [keys[0]];
      }
      sql := sql + keys[i];
    }
    assert keys[..|keys|] == keys;
  }

  /** `Init`'s CREATE TABLE text for the Data table, built for a struct with
      these fields. */
  method BuildCreateTableSql(names: seq<string>, kinds: seq<Kind>) returns (sql: string)
    requires |names| == |kinds|
    ensures sql == CreateTableSql(names, kinds)
  {
    sql := CreateDataPrefix;
    sql := AppendColumnDefs(sql, names, kinds);
    sql := sql + ", PRIMARY KEY (";
    sql := AppendKeys(sql, PrimaryKeys);
    sql := sql + ")";
    sql := sql + ForeignKeyClause;
    sql := sql + ");";
  }

  /** Each piece behind a leading space. */
  function LeadSpace(parts: seq<string>): (r: seq<string>)
    ensures |r| == |parts| && forall i :: 0 <= i < |parts| ==> r[i] == " " + parts[i]
  {
    seq(|parts|, i requires 0 <= i < |parts| => " " + parts[i])
  }

  /** The pieces a reader gets by cutting a ", "-joined list at each ',':
      the first element, then each further one behind the space. */
  function CommaPieces(defs: seq<string>): (pieces: seq<string>)
    requires |defs| >= 1
  {
    [defs[0]] + LeadSpace(defs[1..])
  }

  /** Joining with ", " is joining the space-led pieces with ",". */
  lemma {:induction false} JoinCommaSpace(defs: seq<string>)
    requires |defs| >= 1
    ensures Join(defs, ", ") == Join(CommaPieces(defs), ",")
    decreases |defs|
  {
    if |defs| > 1 {
      var rest := defs[1..];
      JoinCommaSpace(rest);
      var more := LeadSpace(rest[1..]);
      assert LeadSpace(rest) == [" " + rest[0]] + more;
      assert CommaPieces(defs)[1..] == LeadSpace(rest);
      assert CommaPieces(rest) == [rest[0]] + more;
      calc {
        Join(CommaPieces(defs), ",");
        defs[0] + "," + Join(LeadSpace(rest), ",");
        defs[0] + "," + Join([" " + rest[0]] + more, ",");
        { JoinPrefixFirst(" ", rest[0], more, ","); }
        defs[0] + "," + (" " + Join([rest[0]] + more, ","));
        defs[0] + "," + (" " + Join(rest, ", "));
        { assert defs[0] + "," + (" " + Join(rest, ", ")) == defs[0] + ", " + Join(rest, ", "); }
        defs[0] + ", " + Join(rest, ", ");
        Join(defs, ", ");
      }
    }
  }

  /** No column type holds ',' or ' '. */
  lemma PlainTypes()
    ensures forall k :: ',' !in SqlType(k) && ' ' !in SqlType(k)
  {
  }

  /** TrimLeft drops the one space put before a text that starts otherwise. */
  lemma TrimLeadSpace(def: string, lead: string)
    requires |def| > 0 && def[0] != ' '
    requires lead == "" || lead == " "
    ensures TrimLeft(lead + def, {' '}) == def
  {
    if lead == " " {
      assert (lead + def)[1..] == def;
    } else {
      assert lead + def == def;
    }
  }

  lemma SplitNameType(name: string, sqlType: string)
    requires ' ' !in name && ' ' !in sqlType
    ensures Split(name + " " + sqlType, ' ') == [name, sqlType]
  {
    SplitAfterPiece(name, ' ', sqlType);
    SplitNoSeparator(sqlType, ' ');
  }

  /** One column definition, with or without the space that followed the
      comma before it, reads back as its name and its type. */
  lemma ColumnDefParse(name: string, kind: Kind, lead: string)
    requires PlainName(name)
    requires lead == "" || lead == " "
    ensures ',' !in lead + (name + " " + SqlType(kind))
    ensures Split(TrimLeft(lead + (name + " " + SqlType(kind)), {' '}), ' ') == [name, SqlType(kind)]
  {
    var def := name + " " + SqlType(kind);
    assert def[0] != ' ' by { assert def[0] == name[0] && name[0] in name; }
    TrimLeadSpace(def, lead);
    PlainTypes();
    SplitNameType(name, SqlType(kind));
  }

  /** A column list of plain names reads back field by field: cut at ',' it
      gives one piece per field, in order, and each piece, once its leading
      space is dropped, cut at ' ' gives the field's name and column type. */
  lemma ColumnsParse(names: seq<string>, kinds: seq<Kind>)
    requires |names| == |kinds| >= 1
    requires forall i :: 0 <= i < |names| ==> PlainName(names[i])
    ensures var pieces := Split(Join(ColumnDefs(names, kinds), ", "), ',');
            && |pieces| == |names|
            && forall i :: 0 <= i < |names| ==>
                 Split(TrimLeft(pieces[i], {' '}), ' ') == [names[i], SqlType(kinds[i])]
  {
    var defs := ColumnDefs(names, kinds);
    JoinCommaSpace(defs);
    var pieces := CommaPieces(defs);
    assert forall i :: 0 <= i < |names| ==> pieces[i] == (if i == 0 then "" else " ") + defs[i];
    forall i | 0 <= i < |names|
      ensures ',' !in pieces[i]
      ensures Split(TrimLeft(pieces[i], {' '}), ' ') == [names[i], SqlType(kinds[i])]
    {
      ColumnDefParse(names[i], kinds[i], if i == 0 then "" else " ");
    }
    SplitJoin(pieces, ',');
  }

  /** The Data table lists every field of `Data` in declaration order as
      "Name TYPE": string TEXT, int INTEGER, bool the empty type. */
  lemma DataTableColumns()
    ensures var pieces := Split(Join(ColumnDefs(FieldNames, DataKinds()), ", "), ',');
            && |pieces| == FieldCount
            && forall i :: 0 <= i < FieldCount ==>
                 Split(TrimLeft(pieces[i], {' '}), ' ') == [FieldNames[i], SqlType(FieldKind(i))]
    ensures SqlType(FieldKind(IsMergedIdx)) == "" && SqlType(FieldKind(SumIdx)) == "INTEGER"
  {
    PlainNames();
    ColumnsParse(FieldNames, DataKinds());
  }

  // ---------------------------------------------------------------------------
  // INSERT text (BulkInsertData, BulkInsertDataWithTx)
  // ---------------------------------------------------------------------------

  function Placeholders(n: nat): (ps: seq<string>)
    ensures |ps| == n && forall i :: 0 <= i < n ==> ps[i] == "?"
  {
    seq(n, _ => "?")
  }

  /** The statement the bulk inserts prepare for a record type with these field names. */
  function InsertSql(names: seq<string>): string
  {
    "INSERT INTO Data (" + Join(names, ",") + ") VALUES (" + Join(Placeholders(|names|), ",") + ")"
  }

  /** The loop of the bulk inserts over the record type's fields, collecting
      the column names and the placeholders, then the `fmt.Sprintf` around them. */
  method BuildInsertSql(names: seq<string>) returns (sql: string)
    ensures sql == InsertSql(names)
  {
    var fields: seq<string> := [];
    var placeholders: seq<string> := [];
    for i := 0 to |names|
      invariant fields == names[..i]
      invariant placeholders == Placeholders(i)
    {
      fields := fields + [names[i]];
      placeholders := placeholders + ["?"];
    }
    assert names[..|names|] == names;
    sql := "INSERT INTO Data (" + Join(fields, ",") + ") VALUES (" + Join(placeholders, ",") + ")";
  }

  lemma {:induction false} PlaceholderCount(n: nat)
    ensures Count(Join(Placeholders(n), ","), '?') == n
    decreases n
  {
    if n > 1 {
      PlaceholderCount(n - 1);
      assert Placeholders(n) == Placeholders(n - 1) + ["?"];
      JoinSnoc(Placeholders(n - 1), "?", ",");
      CountAppend(Join(Placeholders(n - 1), ",") + ",", "?", '?');
      CountAppend(Join(Placeholders(n - 1), ","), ",", '?');
    } else if n == 1 {
      assert Count("?", '?') == 1;
    }
  }

  /** The '?' marks of a text built as head, column list, middle,
      placeholder list and tail are the placeholders' when the literal pieces
      and the names carry none. */
  lemma {:induction false} MarksOfInsert(head: string, mid: string, tail: string, names: seq<string>)
    requires '?' !in head && '?' !in mid && '?' !in tail
    requires forall i :: 0 <= i < |names| ==> PlainName(names[i])
    ensures Count(head + Join(names, ",") + mid + Join(Placeholders(|names|), ",") + tail, '?') == |names|
  {
    var columns := Join(names, ",");
    var ps := Join(Placeholders(|names|), ",");
    assert Count(columns, '?') == 0 by { JoinAvoids(names, ",", '?'); }
    assert Count(ps, '?') == |names| by { PlaceholderCount(|names|); }
    CountAppend(head, columns, '?');
    CountAppend(head + columns, mid, '?');
    CountAppend(head + columns + mid, ps, '?');
    CountAppend(head + columns + mid + ps, tail, '?');
  }

  /** The fixed text of the INSERT holds no '?'. */
  lemma InsertPiecesUnmarked()
    ensures '?' !in "INSERT INTO Data (" && '?' !in ") VALUES (" && '?' !in ")"
  {
  }

  /** The INSERT names every column in order (cut at ',' its column list gives
      the names back) and carries exactly one '?' per column. */
  lemma InsertSqlShape(names: seq<string>)
    requires |names| >= 1
    requires forall i :: 0 <= i < |names| ==> PlainName(names[i])
    ensures Split(Join(names, ","), ',') == names
    ensures Count(InsertSql(names), '?') == |names|
  {
    SplitJoin(names, ',');
    InsertPiecesUnmarked();
    MarksOfInsert("INSERT INTO Data (", ") VALUES (", ")", names);
    assert InsertSql(names) == "INSERT INTO Data (" + Join(names, ",") + ") VALUES (" + Join(Placeholders(|names|), ",") + ")";
  }

  /** For `Data` records: all 38 columns, one '?' each. */
  lemma DataInsertSql()
    ensures Split(Join(FieldNames, ","), ',') == FieldNames
    ensures Count(InsertSql(FieldNames), '?') == FieldCount
  {
    PlainNames();
    InsertSqlShape(FieldNames);
  }

  // ---------------------------------------------------------------------------
  // The tables
  // ---------------------------------------------------------------------------

  type DataKey = (string, int)
  type DataTable = map<DataKey, seq<Value>>

  /** Every row is a `Data` value stored under its own primary key. */
  ghost predicate KeyedRows(table: DataTable) {
    forall k :: k in table ==> WellTyped(table[k]) && Key(table[k]) == k
  }

  /** What executing the prepared INSERT once per record, in order, leaves:
      the table with each record added under its key, up to the first record
      whose key is taken (by a stored row or an earlier record), whose
      primary-key violation is the error. */
  function InsertEach(table: DataTable, records: seq<seq<Value>>): (r: (DataTable, Option<Error>))
    decreases |records|
  {
    if |records| == 0 then (table, None)
    else
      var k := Key(records[0]);
      if k in table then (table, Some(DuplicateKey(k.0, k.1)))
      else InsertEach(table[k := records[0]], records[1..])
  }

  /** The keys of a batch are fresh: none is stored and no two records share one. */
  ghost predicate FreshKeys(table: DataTable, records: seq<seq<Value>>) {
    && (forall i :: 0 <= i < |records| ==> Key(records[i]) !in table)
    && (forall i, j :: 0 <= i < j < |records| ==> Key(records[i]) != Key(records[j]))
  }

  /** Inserting never changes or removes a stored row. */
  lemma {:induction false} InsertEachPreserves(table: DataTable, records: seq<seq<Value>>)
    ensures forall k :: k in table ==> k in InsertEach(table, records).0 && InsertEach(table, records).0[k] == table[k]
    decreases |records|
  {
    if |records| > 0 && Key(records[0]) !in table {
      InsertEachPreserves(table[Key(records[0]) := records[0]], records[1..]);
    }
  }

  /** Well-typed records go in under their own keys, so the rows stay keyed. */
  lemma {:induction false} InsertEachKeyed(table: DataTable, records: seq<seq<Value>>)
    requires KeyedRows(table)
    requires forall i :: 0 <= i < |records| ==> WellTyped(records[i])
    ensures KeyedRows(InsertEach(table, records).0)
    decreases |records|
  {
    if |records| > 0 && Key(records[0]) !in table {
      InsertEachKeyed(table[Key(records[0]) := records[0]], records[1..]);
    }
  }

  /** The batch goes in without error exactly when its keys are fresh. */
  lemma {:induction false} InsertEachSucceeds(table: DataTable, records: seq<seq<Value>>)
    ensures InsertEach(table, records).1.None? <==> FreshKeys(table, records)
    decreases |records|
  {
    if |records| > 0 {
      var k := Key(records[0]);
      var rest := records[1..];
      assert forall i :: 1 <= i < |records| ==> records[i] == rest[i - 1];
      if k !in table {
        var table' := table[k := records[0]];
        InsertEachSucceeds(table', rest);
        if FreshKeys(table, records) {
          assert FreshKeys(table', rest);
        } else if FreshKeys(table', rest) {
          assert false;
        }
      } else {
        assert !FreshKeys(table, records);
      }
    }
  }

  /** A batch that goes in adds exactly its records, each under its key. */
  lemma {:induction false} InsertEachAdds(table: DataTable, records: seq<seq<Value>>)
    requires InsertEach(table, records).1.None?
    ensures forall i :: 0 <= i < |records| ==> Key(records[i]) in InsertEach(table, records).0 && InsertEach(table, records).0[Key(records[i])] == records[i]
    ensures forall k :: k in InsertEach(table, records).0 ==> k in table || exists i :: 0 <= i < |records| && Key(records[i]) == k
    decreases |records|
  {
    if |records| > 0 {
      var k := Key(records[0]);
      var rest := records[1..];
      var table' := table[k := records[0]];
      InsertEachAdds(table', rest);
      InsertEachPreserves(table', rest);
      assert forall i :: 1 <= i < |records| ==> records[i] == rest[i - 1];
      var t := InsertEach(table, records).0;
      forall x | x in t && x !in table
        ensures exists i :: 0 <= i < |records| && Key(records[i]) == x
      {
        if x == k {
          assert Key(records[0]) == x;
        } else {
          var j :| 0 <= j < |rest| && Key(rest[j]) == x;
          assert Key(records[j + 1]) == x;
        }
      }
    }
  }

  /** A failing batch reports the key of one of its own records. */
  lemma {:induction false} InsertEachBlames(table: DataTable, records: seq<seq<Value>>)
    requires InsertEach(table, records).1.Some?
    ensures exists i :: 0 <= i < |records| && InsertEach(table, records).1.value == DuplicateKey(Key(records[i]).0, Key(records[i]).1)
    decreases |records|
  {
    var k := Key(records[0]);
    if k !in table {
      var rest := records[1..];
      InsertEachBlames(table[k := records[0]], rest);
      var j :| 0 <= j < |rest| && InsertEach(table, records).1.value == DuplicateKey(Key(rest[j]).0, Key(rest[j]).1);
      assert rest[j] == records[j + 1];
    }
  }

  /** The Data table without the rows of one date: exactly the other rows,
      unchanged. */
  function WithoutDate(table: DataTable, date: string): (r: DataTable)
    ensures forall k :: k in r <==> k in table && k.0 != date
    ensures forall k :: k in r ==> r[k] == table[k]
  {
    map k | k in table && k.0 != date :: table[k]
  }

  /** The state a transaction can return the tables to. */
  datatype Snapshot = Snapshot(hashes: map<string, string>, data: DataTable)

  /** The SQLite database: Hashes (Date -> Hash), Data, and the essential-word
      counts stored per date. */
  class Store {
    var hashes: map<string, string>
    var data: DataTable
    var words: map<string, map<string, nat>>

    ghost predicate Valid()
      reads this
    {
      KeyedRows(data)
    }

    /** A freshly initialised database: every table empty. */
    constructor()
      ensures Valid()
      ensures hashes == map[] && data == map[] && words == map[]
    {
      hashes := map[];
      data := map[];
      words := map[];
    }

    /** `GetHash`: the stored hash, or `ErrNoRecordFound` when the date has no row. */
    method GetHash(date: string) returns (r: Result<string, Error>)
      ensures r.Ok? <==> date in hashes
      ensures r.Ok? ==> r.value == hashes[date]
      ensures r.Err? ==> r.error == NoRecordFound
    {
      if date in hashes {
        return Ok(hashes[date]);
      }
      return Err(NoRecordFound);
    }

    /** `CreateHash` / `CreateHashWithTx`: a new Hashes row. A date that already
        has one violates the primary key; the source exits there, the model
        reports the failure and changes nothing. */
    method CreateHash(date: string, hash: string) returns (err: Option<Error>)
      modifies this
      ensures err.None? <==> date !in old(hashes)
      ensures err.None? ==> hashes == old(hashes)[date := hash]
      ensures err.Some? ==> hashes == old(hashes) && err.value == StorageFailure("UNIQUE constraint failed: Hashes.Date")
      ensures data == old(data) && words == old(words)
    {
      if date in hashes {
        return Some(StorageFailure("UNIQUE constraint failed: Hashes.Date"));
      }
      hashes := hashes[date := hash];
      return None;
    }

    /** `UpdateHash` / `UpdateHashWithTx`: an UPDATE, so a date without a row
        gains none; only that date's hash changes. */
    method UpdateHash(date: string, newHash: string)
      modifies this
      ensures date in old(hashes) ==> hashes == old(hashes)[date := newHash]
      ensures date !in old(hashes) ==> hashes == old(hashes)
      ensures data == old(data) && words == old(words)
    {
      if date in hashes {
        hashes := hashes[date := newHash];
      }
    }

    /** `DeleteDataByDate` / `DeleteDataByDateWithTx`: exactly the rows of that date go. */
    method DeleteDataByDate(date: string)
      requires Valid()
      modifies this
      ensures Valid()
      ensures data == WithoutDate(old(data), date)
      ensures hashes == old(hashes) && words == old(words)
    {
      data := WithoutDate(data, date);
    }

    /** `BulkInsertDataWithTx`: an empty batch is a no-op; otherwise one INSERT
        per record, in order, stopping at the first failure and leaving the
        rows before it in place (the caller's transaction decides their fate). */
    method BulkInsertDataWithTx(records: seq<seq<Value>>) returns (err: Option<Error>)
      requires Valid()
      requires forall i :: 0 <= i < |records| ==> WellTyped(records[i])
      modifies this
      ensures Valid()
      ensures (data, err) == InsertEach(old(data), records)
      ensures |records| == 0 ==> err.None? && data == old(data)
      ensures hashes == old(hashes) && words == old(words)
    {
      if |records| == 0 {
        return None;
      }
      var i := 0;
      while i < |records|
        invariant 0 <= i <= |records|
        invariant KeyedRows(data)
        invariant InsertEach(old(data), records) == InsertEach(data, records[i..])
        invariant hashes == old(hashes) && words == old(words)
      {
        var k := Key(records[i]);
        assert records[i..][1..] == records[i + 1..];
        if k in data {
          return Some(DuplicateKey(k.0, k.1));
        }
        data := data[k := records[i]];
        i := i + 1;
      }
      return None;
    }

    /** `BulkInsertData`: the same inserts in a transaction of its own, so
        either the whole batch lands or the table is as it was. */
    method BulkInsertData(records: seq<seq<Value>>) returns (err: Option<Error>)
      requires Valid()
      requires forall i :: 0 <= i < |records| ==> WellTyped(records[i])
      modifies this
      ensures Valid()
      ensures err == InsertEach(old(data), records).1
      ensures err.None? ==> data == InsertEach(old(data), records).0
      ensures err.Some? ==> data == old(data)
      ensures hashes == old(hashes) && words == old(words)
    {
      var tx := Begin();
      err := BulkInsertDataWithTx(records);
      if err.Some? {
        Rollback(tx);
      }
    }

    /** `BeginTransaction`: the state a rollback returns to. */
    method Begin() returns (tx: Snapshot)
      ensures tx == Snapshot(hashes, data)
    {
      return Snapshot(hashes, data);
    }

    /** `tx.Rollback()`: the tables are back at the snapshot. */
    method Rollback(tx: Snapshot)
      requires KeyedRows(tx.data)
      modifies this
      ensures Valid()
      ensures hashes == tx.hashes && data == tx.data && words == old(words)
    {
      hashes := tx.hashes;
      data := tx.data;
    }

    /** `UpdateWords`: the word counts of one date are replaced. */
    method UpdateWords(date: string, counts: map<string, nat>)
      modifies this
      ensures words == old(words)[date := counts]
      ensures hashes == old(hashes) && data == old(data)
    {
      words := words[date := counts];
    }
  }
}
