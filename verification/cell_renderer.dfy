/** What CustomTableCellRenderer.java puts on a table cell, as values: the
    background colour of a row, the icon and text of the name column, and the
    text of the size column (its sentinels and its choice of unit). */
module CellRenderer {
  import opened FileSystem
  import opened TableModel

  const IN_PROGRESS_STRING: string := "--"
  const ERROR_STRING: string := "ERROR"

  const KILOBYTE: int := 1024
  const MEGABYTE: int := 1024 * KILOBYTE
  const GIGABYTE: int := 1024 * MEGABYTE
  const TERABYTE: int := 1024 * GIGABYTE

  /** The unit names, smallest first; `UNITS[k]` counts in 1024^k bytes. */
  const UNITS: seq<string> := ["B", "KB", "MB", "GB", "TB"]

  function Pow1024(k: nat): nat
  {
    if k == 0 then 1 else 1024 * Pow1024(k - 1)
  }

  /** A size is shown as `bytes / divisor` followed by `name`. */
  datatype Unit = Unit(name: string, divisor: int)

  /** The unit formatFileSize picks for a number of bytes. */
  function FileSizeUnit(bytes: int): (u: Unit)
    ensures u.name in UNITS && u.divisor > 0
  {
    if bytes < KILOBYTE then Unit("B", 1)
    else if bytes < MEGABYTE then Unit("KB", KILOBYTE)
    else if bytes < GIGABYTE then Unit("MB", MEGABYTE)
    else if bytes < TERABYTE then Unit("GB", GIGABYTE)
    else Unit("TB", TERABYTE)
  }

  /** The units form a ladder of powers of 1024: a size in
      [1024^k, 1024^(k+1)) is shown in unit k, divided by 1024^k; everything
      below 1024 is in bytes and everything from 1024^4 on in terabytes. */
  lemma {:induction false} FileSizeUnitLadder(bytes: int, k: nat)
    requires k < |UNITS|
    requires k == 0 || Pow1024(k) <= bytes
    requires k == |UNITS| - 1 || bytes < Pow1024(k + 1)
    ensures FileSizeUnit(bytes) == Unit(UNITS[k], Pow1024(k))
  {
    assert Pow1024(1) == KILOBYTE;
    assert Pow1024(2) == MEGABYTE;
    assert Pow1024(3) == GIGABYTE;
    assert Pow1024(4) == TERABYTE;
    assert Pow1024(5) == 1024 * TERABYTE;
  }

  /** For a non-negative size the number shown has an integer part below
      1024 unless the unit is TB, and at least 1 unless the unit is B. */
  lemma ShownNumberInRange(bytes: int)
    requires bytes >= 0
    ensures var u := FileSizeUnit(bytes);
      (u.name != "TB" ==> bytes / u.divisor < 1024) &&
      (u.name != "B" ==> bytes / u.divisor >= 1)
  {
  }

  /** What the size column shows: a fixed text, or a number of bytes in a
      unit (its two-decimal rendering is left out). */
  datatype SizeText = Text(text: string) | Scaled(bytes: int, unit: Unit)

  /** handleSizeValue: pending shows "--", an error "ERROR", and any other
      number is shown scaled to its unit. */
  function SizeValueText(size: Slot): (t: SizeText)
    ensures Decode(size) == Some(Pending) <==> t == Text(IN_PROGRESS_STRING)
    ensures Decode(size) == Some(Error) <==> t == Text(ERROR_STRING)
    ensures forall n: nat :: Decode(size) == Some(Value(n)) ==> t == Scaled(n, FileSizeUnit(n))
  {
    if size == Null then Text(IN_PROGRESS_STRING)
    else if size.value == ERROR then Text(ERROR_STRING)
    else Scaled(size.value, FileSizeUnit(size.value))
  }

  datatype Color = Rgb(red: int, green: int, blue: int)

  const WHITE: Color := Rgb(255, 255, 255)
  const LIGHT_GRAY: Color := Rgb(230, 230, 230)

  /** The background an unselected row gets; a selected row keeps the
      selection colour (None). */
  function RowBackground(row: int, isSelected: bool): (c: Option<Color>)
    ensures c.None? <==> isSelected
    ensures c.Some? ==> c.value in {WHITE, LIGHT_GRAY}
  {
    if isSelected then None
    else if row % 2 == 0 then Some(WHITE) else Some(LIGHT_GRAY)
  }

  /** Unselected rows alternate: row 0 is white, neighbours differ, and the
      pattern repeats every two rows. */
  lemma RowStripes(row: int)
    ensures RowBackground(0, false) == Some(WHITE)
    ensures RowBackground(row, false) != RowBackground(row + 1, false)
    ensures RowBackground(row, false) == RowBackground(row + 2, false)
  {
  }

  datatype Icon = FolderIcon | FileIcon

  /** A rendered cell: background (None: left as the default renderer set it),
      icon (None: no icon), and text. */
  datatype Cell = Cell(background: Option<Color>, icon: Option<Icon>, text: CellText)

  /** The text of a cell: a plain string or a size text. */
  datatype CellText = Plain(s: string) | SizeOf(t: SizeText)

  /** getTableCellRendererComponent for a cell holding `value` in view row
      `row`; `isDirectoryRow` is the model's `isDirectory` for the model row
      that view row shows. The table has only the name and size columns. */
  function Render(value: CellValue, isSelected: bool, row: int, column: int, isDirectoryRow: bool): (c: Cell)
    requires column == NAME_COLUMN || column == SIZE_COLUMN
    requires column == NAME_COLUMN ==> value.PathCell? && |value.path.names| > 0
    requires column == SIZE_COLUMN ==> value.SizeCell?
    ensures c.background == RowBackground(row, isSelected)
    ensures column == NAME_COLUMN ==>
      c.text == Plain(value.path.LastName()) && c.icon.Some? && (c.icon.value == FolderIcon <==> isDirectoryRow)
    ensures column == SIZE_COLUMN ==> c.icon.None? && c.text == SizeOf(SizeValueText(value.slot))
  {
    var background := RowBackground(row, isSelected);
    if column == NAME_COLUMN then
      Cell(background, Some(if isDirectoryRow then FolderIcon else FileIcon), Plain(value.path.LastName()))
    else
      Cell(background, None, SizeOf(SizeValueText(value.slot)))
  }
}
