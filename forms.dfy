/**
 * Validation of the packing configuration form: the optional CSV upload of box
 * dimensions (file name, size, columns, and every data row) and the minimum
 * pallet volume. The CSV reader itself is abstracted: an upload carries its
 * content already split into a header and rows, with decoding and reader
 * failures marked where the reader would raise them.
 */
module UploadForms {
  import opened Options

  /** The largest accepted upload: 5 MiB. */
  const MaxUploadBytes: int := 5 * 1024 * 1024

  /** At most this many data rows (boxes) per upload. */
  const MaxRows: nat := 1000

  /** The largest accepted box extent. */
  const MaxExtent: real := 100.0

  /** The columns every upload must have, in the order they are checked. */
  const Required: seq<string> := ["x", "y", "z"]

  /** A cell of a required column: a number, or text `float()` rejects (including a missing cell). */
  datatype Cell = Number(value: real) | NotANumber

  /** A data row as the reader yields it: the x, y and z cells, or a reader error at this row. */
  datatype RowRead = Row(x: Cell, y: Cell, z: Cell) | RowFault

  /** The header line: absent (empty content), the column names, or a reader error. */
  datatype Header = NoHeader | Columns(names: seq<string>) | HeaderFault

  /** The file content: not valid UTF-8, or a header and the data rows. */
  datatype Content = Undecodable | Table(header: Header, rows: seq<RowRead>)

  datatype Upload = Upload(name: string, size: int, content: Content)

  /** The validation errors of the upload field; row numbers count the header as row 1. */
  datatype UploadError =
    | NotCsvExtension
    | TooLarge
    | NotUtf8
    | InvalidCsv
    | MissingColumns
    | TooManyRows
    | NoRows
    | NotANumberAt(row: nat, column: string)
    | NotPositive(row: nat, column: string)
    | AboveMaximum(row: nat, column: string)

  /**
   * What validation of the field comes to: the file is returned, rejected with
   * an error, or the validator itself fails (a header-less file makes the
   * column check raise an exception the field does not catch).
   */
  datatype Outcome = Accepted(file: Option<Upload>) | Rejected(error: UploadError) | Crashed

  predicate EndsWithCsv(name: string) {
    |name| >= 4 && name[|name| - 4..] == ".csv"
  }

  predicate HasColumns(names: seq<string>) {
    forall k :: 0 <= k < |Required| ==> Required[k] in names
  }

  /** The cell of required column `k` (0 for x, 1 for y, 2 for z). */
  function CellAt(r: RowRead, k: nat): Cell
    requires r.Row? && k < 3
  {
    if k == 0 then r.x else if k == 1 then r.y else r.z
  }

  /** The error a cell of column `col` in row `rowNum` raises, if any. */
  function CheckCell(c: Cell, rowNum: nat, col: string): (e: Option<UploadError>)
    ensures e.None? <==> c.Number? && 0.0 < c.value <= MaxExtent
  {
    match c
    case NotANumber => Some(NotANumberAt(rowNum, col))
    case Number(v) =>
      if v <= 0.0 then Some(NotPositive(rowNum, col))
      else if v > MaxExtent then Some(AboveMaximum(rowNum, col))
      else None
  }

  /** The first error among the cells of row `r`, from column `k` on. */
  function CheckCells(r: RowRead, rowNum: nat, k: nat): Option<UploadError>
    requires r.Row? && k <= 3
    decreases 3 - k
  {
    if k == 3 then None
    else
      var e := CheckCell(CellAt(r, k), rowNum, Required[k]);
      if e.Some? then e else CheckCells(r, rowNum, k + 1)
  }

  /** A data row every check accepts. */
  predicate RowValid(r: RowRead) {
    r.Row? && forall k :: 0 <= k < 3 ==> CellAt(r, k).Number? && 0.0 < CellAt(r, k).value <= MaxExtent
  }

  /**
   * The first error raised while reading and checking rows `i` and later,
   * where `i` rows have already been counted.
   */
  function FirstRowError(rows: seq<RowRead>, i: nat): Option<UploadError>
    requires i <= |rows|
    decreases |rows| - i
  {
    if i == |rows| then None
    else if rows[i].RowFault? then Some(InvalidCsv)
    else if i + 1 > MaxRows then Some(TooManyRows)
    else
      var e := CheckCells(rows[i], i + 2, 0);
      if e.Some? then e else FirstRowError(rows, i + 1)
  }

  /** The validation of a decoded table. */
  function CheckTable(header: Header, rows: seq<RowRead>): Outcome {
    match header
    case NoHeader => Crashed
    case HeaderFault => Rejected(InvalidCsv)
    case Columns(names) =>
      if !HasColumns(names) then Rejected(MissingColumns)
      else match FirstRowError(rows, 0)
        case Some(e) => Rejected(e)
        case None => if |rows| == 0 then Rejected(NoRows) else Accepted(None)
  }

  /**
   * The field's validation as a function of the upload: a missing file (or
   * one with an empty name) passes unchanged; then the extension, the size,
   * the decoding, the header, and the rows are checked in that order.
   */
  function CleanCsv(file: Option<Upload>): (r: Outcome)
    ensures r.Accepted? ==> r.file == file
    ensures r.Accepted? && file.Some? && file.value.name != [] ==>
      EndsWithCsv(file.value.name) && file.value.size <= MaxUploadBytes && file.value.content.Table?
  {
    if file.None? || file.value.name == [] then Accepted(file)
    else
      var f := file.value;
      if !EndsWithCsv(f.name) then Rejected(NotCsvExtension)
      else if f.size > MaxUploadBytes then Rejected(TooLarge)
      else match f.content
        case Undecodable => Rejected(NotUtf8)
        case Table(header, rows) =>
          var t := CheckTable(header, rows);
          if t.Accepted? then Accepted(file) else t
  }

  /** A row passes the cell checks from column k on exactly when its remaining cells are in (0, 100]. */
  lemma {:induction false} CheckCellsNone(r: RowRead, rowNum: nat, k: nat)
    requires r.Row? && k <= 3
    ensures CheckCells(r, rowNum, k).None? <==>
      forall j :: k <= j < 3 ==> CellAt(r, j).Number? && 0.0 < CellAt(r, j).value <= MaxExtent
    decreases 3 - k
  {
    if k < 3 {
      CheckCellsNone(r, rowNum, k + 1);
    }
  }

  /** The rows from `i` on raise nothing exactly when they are all valid and there are at most 1000 rows. */
  lemma {:induction false} FirstRowErrorNone(rows: seq<RowRead>, i: nat)
    requires i <= |rows|
    ensures FirstRowError(rows, i).None? <==>
      (i == |rows| || |rows| <= MaxRows) && forall j :: i <= j < |rows| ==> RowValid(rows[j])
    decreases |rows| - i
  {
    if i < |rows| {
      FirstRowErrorNone(rows, i + 1);
      if rows[i].Row? {
        CheckCellsNone(rows[i], i + 2, 0);
      }
    }
  }

  /** A well-formed upload: every rule of the field holds. */
  predicate UploadValid(f: Upload) {
    && EndsWithCsv(f.name)
    && f.size <= MaxUploadBytes
    && f.content.Table?
    && f.content.header.Columns?
    && HasColumns(f.content.header.names)
    && 1 <= |f.content.rows| <= MaxRows
    && forall j :: 0 <= j < |f.content.rows| ==> RowValid(f.content.rows[j])
  }

  /**
   * The field accepts exactly the missing file, the file with an empty name,
   * and the valid uploads, and then returns the file unchanged.
   */
  lemma CleanCsvAcceptsValid(file: Option<Upload>)
    ensures CleanCsv(file).Accepted? <==> file.None? || file.value.name == [] || UploadValid(file.value)
    ensures CleanCsv(file).Accepted? ==> CleanCsv(file).file == file
  {
    if file.Some? && file.value.content.Table? {
      FirstRowErrorNone(file.value.content.rows, 0);
    }
  }

  /** The first cell error of a row names that row's number and the first bad column. */
  lemma {:induction false} CheckCellsLocated(r: RowRead, rowNum: nat, k: nat)
    requires r.Row? && k <= 3
    requires CheckCells(r, rowNum, k).Some?
    ensures CheckCells(r, rowNum, k).value.row == rowNum
    ensures exists j :: k <= j < 3 && CheckCells(r, rowNum, k).value.column == Required[j]
    decreases 3 - k
  {
    if CheckCell(CellAt(r, k), rowNum, Required[k]).None? {
      CheckCellsLocated(r, rowNum, k + 1);
    }
  }

  /**
   * A cell error reports the row number of the first bad row: a number in
   * [2, 1001], all rows before it valid and the row itself invalid.
   */
  lemma {:induction false} RowErrorLocated(rows: seq<RowRead>, i: nat)
    requires i <= |rows|
    requires FirstRowError(rows, i).Some?
    requires FirstRowError(rows, i).value.NotANumberAt? || FirstRowError(rows, i).value.NotPositive? ||
             FirstRowError(rows, i).value.AboveMaximum?
    ensures i + 2 <= FirstRowError(rows, i).value.row <= MaxRows + 1
    ensures FirstRowError(rows, i).value.row - 2 < |rows|
    ensures forall j :: i <= j < FirstRowError(rows, i).value.row - 2 ==> RowValid(rows[j])
    ensures !RowValid(rows[FirstRowError(rows, i).value.row - 2])
    ensures FirstRowError(rows, i).value.column in Required
    decreases |rows| - i
  {
    var e := CheckCells(rows[i], i + 2, 0);
    CheckCellsNone(rows[i], i + 2, 0);
    if e.Some? {
      CheckCellsLocated(rows[i], i + 2, 0);
    } else {
      RowErrorLocated(rows, i + 1);
    }
  }

  /** The validator of the upload field, a loop over the data rows with early rejection. */
  method CleanCsvFile(file: Option<Upload>) returns (out: Outcome)
    ensures out == CleanCsv(file)
  {
    if file.None? || file.value.name == [] {
      return Accepted(file);
    }
    var f := file.value;
    if !EndsWithCsv(f.name) {
      return Rejected(NotCsvExtension);
    }
    if f.size > MaxUploadBytes {
      return Rejected(TooLarge);
    }
    match f.content {
      case Undecodable =>
        return Rejected(NotUtf8);
      case Table(header, rows) =>
        match header {
          case NoHeader =>
            return Crashed;
          case HeaderFault =>
            return Rejected(InvalidCsv);
          case Columns(names) =>
            if !HasColumns(names) {
              return Rejected(MissingColumns);
            }
        }
        var rowCount := 0;
        for i := 0 to |rows|
          invariant rowCount == i
          invariant FirstRowError(rows, 0) == FirstRowError(rows, i)
        {
          var row := rows[i];
          if row.RowFault? {
            return Rejected(InvalidCsv);
          }
          rowCount := rowCount + 1;
          if rowCount > MaxRows {
            return Rejected(TooManyRows);
          }
          for k := 0 to 3
            invariant CheckCells(row, i + 2, 0) == CheckCells(row, i + 2, k)
          {
            var c := CellAt(row, k);
            match c {
              case NotANumber =>
                return Rejected(NotANumberAt(i + 2, Required[k]));
              case Number(v) =>
                if v <= 0.0 {
                  return Rejected(NotPositive(i + 2, Required[k]));
                }
                if v > MaxExtent {
                  return Rejected(AboveMaximum(i + 2, Required[k]));
                }
            }
          }
        }
        if rowCount == 0 {
          return Rejected(NoRows);
        }
        out := Accepted(file);
    }
  }

  /** The outcome of the form-wide check. */
  datatype FormCheck = Passed | VolumeTooSmall

  /** Python truthiness of an optional number: present and non-zero. */
  predicate Truthy(v: Option<real>) {
    v.Some? && v.value != 0.0
  }

  /**
   * The form-wide check: the pallet volume must be at least 1, but only when
   * all three dimensions are present and non-zero.
   */
  function Clean(width: Option<real>, length: Option<real>, height: Option<real>): (r: FormCheck)
    ensures r == VolumeTooSmall ==>
      width.Some? && length.Some? && height.Some? && width.value * length.value * height.value < 1.0
  {
    if Truthy(width) && Truthy(length) && Truthy(height) then
      if width.value * length.value * height.value < 1.0 then VolumeTooSmall else Passed
    else Passed
  }

  /**
   * A pallet whose dimensions are each at least 1 (the declared minimum of
   * the pallet fields) always passes the volume check.
   */
  lemma CleanPassesDeclaredPallets(w: real, l: real, h: real)
    requires w >= 1.0 && l >= 1.0 && h >= 1.0
    ensures Clean(Some(w), Some(l), Some(h)) == Passed
  {
    assert (w - 1.0) * l >= 0.0;
    assert w * l >= 1.0;
    assert (w * l - 1.0) * h >= 0.0;
  }

  /**
   * A zero or missing dimension switches the check off, so a degenerate
   * pallet passes; with three present non-zero dimensions the form is rejected
   * exactly when their product is below 1, as three halves are.
   */
  lemma CleanTruthiness(w: Option<real>, l: Option<real>, h: Option<real>)
    ensures !Truthy(w) || !Truthy(l) || !Truthy(h) ==> Clean(w, l, h) == Passed
    ensures Truthy(w) && Truthy(l) && Truthy(h) ==>
      (Clean(w, l, h) == VolumeTooSmall <==> w.value * l.value * h.value < 1.0)
    ensures Clean(Some(0.5), Some(0.5), Some(0.5)) == VolumeTooSmall
  {
  }
}
