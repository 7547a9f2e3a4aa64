/**
  The header check of tasks/check_fieldnames.go: the header names of the
  current year's spreadsheet, less the configured exclusions, must all be
  tags of the `Data` record. The clock (`time.Now().Year()`) and the fetch of
  the configured spreadsheets are parameters.
 */
module Tasks {
  import opened Wrappers
  import opened GoText
  import opened Config
  import opened Models
  import opened SheetsClient

  /** The verdict on a set of header names: every name that is not excluded
      is the tag of some field of `Data`. */
  predicate FieldnamesPass(names: set<string>) {
    forall n :: n in names && n !in ExcludeFields ==> n in ModelTags()
  }

  /** What `CheckFieldnames` returns for the year's spreadsheet, if any. */
  function CheckOutcome(spreadsheet: Option<Spreadsheet>): Option<Error>
  {
    match spreadsheet
    case None => Some(CurYearSpreadsheet)
    case Some(sp) =>
      match Collect(sp.sheets)
      case Err(e) => Some(e)
      case Ok(names) => if FieldnamesPass(names) then None else Some(NewFieldsInSpreadsheet)
  }

  /** `areFieldnamesPresentInModel`: the tags of the fields are gathered in a
      loop (an untagged field gives ""), then the names are looked up one by
      one, in no particular order, and the first missing one ends the scan. */
  method AreFieldnamesPresentInModel(names: set<string>) returns (ok: bool)
    ensures ok <==> names <= ModelTags()
  {
    var fromModel: set<string> := {};
    for i := 0 to FieldCount
      invariant fromModel == set j | 0 <= j < i :: FieldTags[j]
    {
      assert (set j | 0 <= j < i + 1 :: FieldTags[j]) == (set j | 0 <= j < i :: FieldTags[j]) + {FieldTags[i]};
      fromModel := fromModel + {FieldTags[i]};
    }
    assert fromModel == ModelTags();
    var rest := names;
    while rest != {}
      invariant rest <= names
      invariant names - rest <= fromModel
      decreases |rest|
    {
      var key :| key in rest;
      if key !in fromModel {
        return false;
      }
      rest := rest - {key};
    }
    return true;
  }

  /** The deletion of the excluded names from the collected ones. */
  method RemoveExcluded(names: set<string>) returns (kept: set<string>)
    ensures forall n :: n in kept <==> n in names && n !in ExcludeFields
  {
    kept := names;
    for k := 0 to |ExcludeFields|
      invariant forall n :: n in kept <==> n in names && n !in ExcludeFields[..k]
    {
      assert ExcludeFields[..k + 1] == ExcludeFields[..k] + [ExcludeFields[k]];
      kept := kept - {ExcludeFields[k]};
    }
    assert ExcludeFields[..|ExcludeFields|] == ExcludeFields;
  }

  /** `CheckFieldnames`, given what fetching each configured spreadsheet
      returns and the current year. A sheet that cannot be read ends the
      collection with its error (the source exits through `log.Fatalf`). */
  method CheckFieldnames(fetched: seq<Result<Spreadsheet, Error>>, currentYear: int) returns (err: Option<Error>)
    ensures err == CheckOutcome(SpreadsheetByYear(fetched, Itoa(currentYear)))
  {
    var yearAsStr := Itoa(currentYear);
    var currentSpreadsheet := GetSpreadsheetByYear(fetched, yearAsStr);
    if currentSpreadsheet.None? {
      return Some(CurYearSpreadsheet);
    }
    var collected := GetFieldnamesFromSpreadsheet(currentSpreadsheet.value.sheets);
    if collected.Err? {
      return Some(collected.error);
    }
    var fieldnames := RemoveExcluded(collected.value);
    var present := AreFieldnamesPresentInModel(fieldnames);
    if !present {
      return Some(NewFieldsInSpreadsheet);
    }
    return None;
  }

  /** The check fails with the new-fields error exactly when a date sheet's
      first row holds a non-numeric name that is neither excluded nor a tag of
      `Data`; a spreadsheet whose sheets all read fine fails with nothing
      else. */
  lemma NewFieldsIffUnknownName(sp: Spreadsheet)
    requires forall i :: 0 <= i < |sp.sheets| && IsDateSheet(sp.sheets[i]) ==> sp.sheets[i].values.Ok?
    ensures CheckOutcome(Some(sp)) == None || CheckOutcome(Some(sp)) == Some(NewFieldsInSpreadsheet)
    ensures CheckOutcome(Some(sp)) == Some(NewFieldsInSpreadsheet) <==>
      exists i, n :: 0 <= i < |sp.sheets| && IsDateSheet(sp.sheets[i]) && n in SheetNames(sp.sheets[i])
                  && n !in ExcludeFields && n !in ModelTags()
  {
    CollectSpec(sp.sheets);
  }

  /** Excluded names in the header never change the outcome of the check:
      a spreadsheet whose names are another's plus some excluded ones gets
      the same outcome. */
  lemma ExcludedNeverFail(sp: Spreadsheet, sp': Spreadsheet, excluded: set<string>)
    requires forall n :: n in excluded ==> n in ExcludeFields
    requires Collect(sp.sheets).Ok?
    requires Collect(sp'.sheets) == Ok(Collect(sp.sheets).value + excluded)
    ensures CheckOutcome(Some(sp')) == CheckOutcome(Some(sp))
  {
    var names := Collect(sp.sheets).value;
    assert FieldnamesPass(names + excluded) == FieldnamesPass(names);
  }

  /** An empty header name passes: the untagged fields give the tag "". */
  lemma EmptyNamePasses()
    ensures "" in ModelTags()
    ensures FieldnamesPass({""})
  {
    UntaggedFields();
    assert FieldTags[DateIdx] == "";
  }

  /** The exclusion is needed: the excluded "да" is no tag of the model, so a
      header holding it would fail the check were it not removed. */
  lemma TagsNotExcluded()
    ensures "да" in ExcludeFields && "да" !in ModelTags()
    ensures !({"да"} <= ModelTags()) && FieldnamesPass({"да"})
  {
    forall i | 0 <= i < FieldCount
      ensures FieldTags[i] != "да"
    {
    }
  }
}
