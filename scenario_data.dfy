/**
 * The scenario workbook as `Scenario_Data` holds it, and its validation.
 * Each sheet becomes a table: one entry per row, keyed by the row's first
 * cell, whose columns hold the cells split on `;` (the `description`
 * column holds its one text). `Scenario_validate` counts the references
 * that point nowhere: effects and logs missing from their sheets, scene
 * children missing from the sheet being scanned, files that do not exist,
 * and `config_file` cells left as `None`.
 */
module ScenarioData {
  import opened Wrappers

  /** One column of a row: its lower-cased header and its cells. */
  datatype Column = Column(name: string, cells: seq<string>)

  /** One row of a sheet, keyed by its first cell. */
  datatype Entry = Entry(id: string, row: seq<Column>)

  /** A sheet as the dictionary `read` builds, in row order. */
  type Table = seq<Entry>

  /** The keys of the dictionary, in order. */
  function Ids(t: Table): (r: seq<string>)
    ensures |r| == |t|
  {
    seq(|t|, k requires 0 <= k < |t| => t[k].id)
  }

  /** No column header occurs twice in a row, as in the row's dictionary. */
  predicate DistinctColumns(row: seq<Column>)
  {
    forall i, j :: 0 <= i < j < |row| ==> row[i].name != row[j].name
  }

  /** No key occurs twice in the sheet, nor a header twice in a row, as in nested dictionaries. */
  predicate Keyed(t: Table)
  {
    && (forall i, j :: 0 <= i < j < |t| ==> t[i].id != t[j].id)
    && (forall k :: 0 <= k < |t| ==> DistinctColumns(t[k].row))
  }

  /** `table[id]`: the row stored under id, if any (a later row with the same key replaces an earlier one). */
  function Lookup(t: Table, id: string): (r: Option<seq<Column>>)
    ensures r.Some? <==> id in Ids(t)
  {
    if t == [] then None
    else
      assert Ids(t) == Ids(t[..|t| - 1]) + [t[|t| - 1].id];
      if t[|t| - 1].id == id then Some(t[|t| - 1].row) else Lookup(t[..|t| - 1], id)
  }

  /** The column named `name` of a row, if there is one. */
  function Cells(row: seq<Column>, name: string): Option<seq<string>>
  {
    if row == [] then None
    else if row[|row| - 1].name == name then Some(row[|row| - 1].cells)
    else Cells(row[..|row| - 1], name)
  }

  /** `j[-4:] == "file"`. */
  predicate IsFileColumn(name: string)
  {
    |name| >= 4 && name[|name| - 4..] == "file"
  }

  /**
   * What a cell may refer to: the effects and logs sheets, the sheet being
   * scanned, and which paths exist on disk.
   */
  datatype Refs = Refs(effects: Table, logs: Table, data: Table, onDisk: string -> bool)

  /** The cell counts as an error in column `name`. */
  predicate Dangling(name: string, cell: string, refs: Refs)
    ensures Dangling(name, cell, refs) ==>
      name == "effects" || name == "logs" || name == "scene_children" || IsFileColumn(name)
  {
    if name == "effects" then cell != "None" && cell !in Ids(refs.effects)
    else if name == "logs" then cell != "None" && cell !in Ids(refs.logs)
    else if name == "scene_children" then cell != "None" && cell !in Ids(refs.data)
    else if IsFileColumn(name) then (if cell != "None" then !refs.onDisk(cell) else name == "config_file")
    else false
  }

  /** Errors among the cells of one column. */
  function CellsErrors(name: string, cells: seq<string>, refs: Refs): nat
  {
    if cells == [] then 0
    else CellsErrors(name, cells[..|cells| - 1], refs) + (if Dangling(name, cells[|cells| - 1], refs) then 1 else 0)
  }

  /** Errors in one row. */
  function RowErrors(row: seq<Column>, refs: Refs): nat
  {
    if row == [] then 0
    else RowErrors(row[..|row| - 1], refs) + CellsErrors(row[|row| - 1].name, row[|row| - 1].cells, refs)
  }

  /** Errors in the rows of a sheet. */
  function TableErrors(rows: Table, refs: Refs): nat
  {
    if rows == [] then 0
    else TableErrors(rows[..|rows| - 1], refs) + RowErrors(rows[|rows| - 1].row, refs)
  }

  /** The sheets in the order the validator scans them. */
  function Sheets(scenario: Table, effects: Table, logs: Table): seq<Table>
  {
    [scenario, effects, logs]
  }

  /** Errors in the first sheets, each scanned against itself for scene children. */
  function SheetsErrors(sheets: seq<Table>, effects: Table, logs: Table, onDisk: string -> bool): (r: nat)
    ensures r == 0 <==> forall k :: 0 <= k < |sheets| ==> TableErrors(sheets[k], Refs(effects, logs, sheets[k], onDisk)) == 0
  {
    if sheets == [] then 0
    else
      var n := |sheets| - 1;
      var data := sheets[n];
      assert forall k :: 0 <= k < n ==> sheets[..n][k] == sheets[k];
      SheetsErrors(sheets[..n], effects, logs, onDisk) + TableErrors(data, Refs(effects, logs, data, onDisk))
  }

  /** Every cell of the sheet is free of errors. */
  predicate Clean(t: Table, refs: Refs)
  {
    forall i, j, k :: 0 <= i < |t| && 0 <= j < |t[i].row| && 0 <= k < |t[i].row[j].cells| ==>
      !Dangling(t[i].row[j].name, t[i].row[j].cells[k], refs)
  }

  /**
   * `Scenario_validate(scenario, effects, logs)`: the number of dangling
   * references over the three sheets, each a dictionary keyed by row id.
   */
  method Validate(scenario: Table, effects: Table, logs: Table, onDisk: string -> bool) returns (errors: nat)
    requires Keyed(scenario) && Keyed(effects) && Keyed(logs)
    ensures errors == SheetsErrors(Sheets(scenario, effects, logs), effects, logs, onDisk)
  {
    var sheets := Sheets(scenario, effects, logs);
    errors := 0;
    for s := 0 to |sheets|
      invariant errors == SheetsErrors(sheets[..s], effects, logs, onDisk)
    {
      var data := sheets[s];
      var found := CountTable(data, Refs(effects, logs, data, onDisk));
      errors := errors + found;
      assert sheets[..s + 1][..s] == sheets[..s];
    }
    assert sheets[..|sheets|] == sheets;
  }

  /** The rows loop of `Scenario_validate` over one sheet. */
  method CountTable(data: Table, refs: Refs) returns (errors: nat)
    ensures errors == TableErrors(data, refs)
  {
    errors := 0;
    for i := 0 to |data|
      invariant errors == TableErrors(data[..i], refs)
    {
      var found := CountRow(data[i].row, refs);
      errors := errors + found;
      assert data[..i + 1][..i] == data[..i];
    }
    assert data[..|data|] == data;
  }

  /** The columns loop over one row. */
  method CountRow(row: seq<Column>, refs: Refs) returns (errors: nat)
    ensures errors == RowErrors(row, refs)
  {
    errors := 0;
    for j := 0 to |row|
      invariant errors == RowErrors(row[..j], refs)
    {
      var column := row[j];
      var found := CountCells(column.name, column.cells, refs);
      errors := errors + found;
      assert row[..j + 1][..j] == row[..j];
    }
    assert row[..|row|] == row;
  }

  /** The cells loop over one column. */
  method CountCells(name: string, cells: seq<string>, refs: Refs) returns (errors: nat)
    ensures errors == CellsErrors(name, cells, refs)
  {
    errors := 0;
    for k := 0 to |cells|
      invariant errors == CellsErrors(name, cells[..k], refs)
    {
      if Dangling(name, cells[k], refs) {
        errors := errors + 1;
      }
      assert cells[..k + 1][..k] == cells[..k];
    }
    assert cells[..|cells|] == cells;
  }

  // ---------------------------------------------------------------- what the count means

  /** A `None` cell is an error only in the `config_file` column. */
  lemma NoneCell(name: string, refs: Refs)
    ensures Dangling(name, "None", refs) <==> name == "config_file"
  {
  }

  lemma {:induction false} CellsErrorsZero(name: string, cells: seq<string>, refs: Refs)
    ensures CellsErrors(name, cells, refs) == 0 <==> forall k :: 0 <= k < |cells| ==> !Dangling(name, cells[k], refs)
  {
    if cells != [] {
      CellsErrorsZero(name, cells[..|cells| - 1], refs);
    }
  }

  lemma {:induction false} RowErrorsZero(row: seq<Column>, refs: Refs)
    ensures RowErrors(row, refs) == 0 <==>
      forall j, k :: 0 <= j < |row| && 0 <= k < |row[j].cells| ==> !Dangling(row[j].name, row[j].cells[k], refs)
  {
    if row != [] {
      var n := |row| - 1;
      RowErrorsZero(row[..n], refs);
      CellsErrorsZero(row[n].name, row[n].cells, refs);
    }
  }

  /** A sheet has no errors exactly when none of its cells is dangling. */
  lemma {:induction false} TableErrorsZero(t: Table, refs: Refs)
    ensures TableErrors(t, refs) == 0 <==> Clean(t, refs)
  {
    if t != [] {
      var n := |t| - 1;
      TableErrorsZero(t[..n], refs);
      RowErrorsZero(t[n].row, refs);
      assert Clean(t, refs) ==> Clean(t[..n], refs) by {
        if Clean(t, refs) {
          forall i, j, k | 0 <= i < n && 0 <= j < |t[..n][i].row| && 0 <= k < |t[..n][i].row[j].cells|
            ensures !Dangling(t[..n][i].row[j].name, t[..n][i].row[j].cells[k], refs)
          {
            assert t[..n][i] == t[i];
          }
        }
      }
    }
  }

  /**
   * The scenario file is valid (the count is 0) exactly when each of the
   * three sheets is clean, scene children being looked up in their own sheet.
   */
  lemma ValidIff(scenario: Table, effects: Table, logs: Table, onDisk: string -> bool)
    ensures SheetsErrors(Sheets(scenario, effects, logs), effects, logs, onDisk) == 0 <==>
      && Clean(scenario, Refs(effects, logs, scenario, onDisk))
      && Clean(effects, Refs(effects, logs, effects, onDisk))
      && Clean(logs, Refs(effects, logs, logs, onDisk))
  {
    var sheets := Sheets(scenario, effects, logs);
    var first, second := [scenario], [scenario, effects];
    assert sheets[..|sheets| - 1] == second && second[..|second| - 1] == first && first[..|first| - 1] == [];
    assert SheetsErrors(first, effects, logs, onDisk) == TableErrors(scenario, Refs(effects, logs, scenario, onDisk));
    assert SheetsErrors(second, effects, logs, onDisk)
      == SheetsErrors(first, effects, logs, onDisk) + TableErrors(effects, Refs(effects, logs, effects, onDisk));
    TableErrorsZero(scenario, Refs(effects, logs, scenario, onDisk));
    TableErrorsZero(effects, Refs(effects, logs, effects, onDisk));
    TableErrorsZero(logs, Refs(effects, logs, logs, onDisk));
  }
}
